/** The MIDI splitter and handler of MidiHandler.py: every instrument track
    of an input file is written to a file of its own under a deterministic
    name, the instrument's program and drum flag are recorded under that
    name, and when a split file is parsed back its instruments are replaced
    by the recorded one. */
module Splitter {
  import opened Results
  import opened Decimal
  import opened Rounding
  import opened Seqs

  /** A General MIDI program number. */
  type Program = p: nat | p < 128

  datatype Note = Note(velocity: nat, pitch: nat, start: real, end: real)

  /** One pretty_midi instrument track. */
  datatype Instrument = Instrument(program: Program, isDrum: bool, notes: seq<Note>)

  datatype TempoChange = TempoChange(time: real, bpm: real)

  datatype TimeSignatureChange = TimeSignatureChange(numerator: nat, denominator: nat, time: real)

  /** The parts of a pretty_midi file the splitter reads and writes. */
  datatype MidiFile = MidiFile(tempoChanges: seq<TempoChange>, timeSignatures: seq<TimeSignatureChange>, instruments: seq<Instrument>)

  /** The editorial comment attached to the music21 instrument stored for a
      split file: `str(program)` and `str(is_drum)`. */
  datatype InstrumentRecord = InstrumentRecord(trueProgram: string, isDrum: string)

  /** The splitter's state: the name-to-instrument dictionary and its two
      switches. */
  datatype MidiSplitter = MidiSplitter(instruments: map<string, InstrumentRecord>, uniformTempo: bool, extractDrums: bool)

  /** A file the splitter writes: its name and contents. */
  datatype Output = Output(name: string, file: MidiFile)

  datatype Split = Split(splitter: MidiSplitter, written: seq<Output>)

  /** `get_tempo_changes()[1][0]` on a file without tempo changes. */
  datatype SplitError = NoTempo(file: string)

  /** A freshly constructed splitter: empty dictionary, both switches on. */
  const DefaultSplitter: MidiSplitter := MidiSplitter(map[], true, true)

  /** The record inserted when a split file has no dictionary entry. */
  const DefaultRecord: InstrumentRecord := InstrumentRecord("0", "0")

  /** Python's `str` of a boolean. */
  function BoolToString(b: bool): (s: string)
    ensures s == "True" <==> b
    ensures s == "False" <==> !b
  {
    if b then "True" else "False"
  }

  /** The record stored for an instrument. */
  function Record(inst: Instrument): (r: InstrumentRecord)
    ensures ParseNat(r.trueProgram) == Some(inst.program as nat)
    ensures r.isDrum == "True" <==> inst.isDrum
  {
    ParseNatToString(inst.program);
    InstrumentRecord(NatToString(inst.program), BoolToString(inst.isDrum))
  }

  /** The output name of the `k`-th instrument of `file`; `nameOf` stands for
      pretty_midi's `program_to_instrument_name`. */
  function PartName(file: string, k: nat, inst: Instrument, nameOf: Program -> string): string {
    if !inst.isDrum then file + "_part_" + NatToString(k) + "_" + nameOf(inst.program) + ".mid"
    else file + "_part_" + NatToString(k) + "_Percussion" + ".mid"
  }

  /** The word after the ordinal: the instrument name, or "Percussion". */
  function Label(inst: Instrument, nameOf: Program -> string): string {
    if inst.isDrum then "Percussion" else nameOf(inst.program)
  }

  /** Every name is the file name, "_part_", the ordinal in decimal, an
      underscore, the label and ".mid". */
  lemma PartNameShape(file: string, k: nat, inst: Instrument, nameOf: Program -> string)
    ensures PartName(file, k, inst, nameOf) == (file + "_part_") + (NatToString(k) + ['_'] + (Label(inst, nameOf) + ".mid"))
  {
    var d := NatToString(k);
    var l := Label(inst, nameOf);
    if inst.isDrum {
      assert "_Percussion" == ['_'] + "Percussion";
      assert file + "_part_" + d + "_Percussion" + ".mid" == (file + "_part_") + (d + ['_'] + (l + ".mid"));
    } else {
      assert file + "_part_" + d + "_" + l + ".mid" == (file + "_part_") + (d + ['_'] + (l + ".mid"));
    }
  }

  /** Two instruments of the same file get the same name only when they have
      the same ordinal. */
  lemma PartNamesDistinct(file: string, j: nat, a: Instrument, k: nat, b: Instrument, nameOf: Program -> string)
    requires PartName(file, j, a, nameOf) == PartName(file, k, b, nameOf)
    ensures j == k
  {
    PartNameShape(file, j, a, nameOf);
    PartNameShape(file, k, b, nameOf);
    var p := file + "_part_";
    var rj := NatToString(j) + ['_'] + (Label(a, nameOf) + ".mid");
    var rk := NatToString(k) + ['_'] + (Label(b, nameOf) + ".mid");
    assert rj == (p + rj)[|p|..] == (p + rk)[|p|..] == rk;
    DigitPrefixUnique(NatToString(j), Label(a, nameOf) + ".mid", NatToString(k), Label(b, nameOf) + ".mid", '_');
    NatToStringInjective(j, k);
  }

  lemma PartNamesDiffer(file: string, j: nat, a: Instrument, k: nat, b: Instrument, nameOf: Program -> string)
    requires j != k
    ensures PartName(file, j, a, nameOf) != PartName(file, k, b, nameOf)
  {
    if PartName(file, j, a, nameOf) == PartName(file, k, b, nameOf) {
      PartNamesDistinct(file, j, a, k, b, nameOf);
    }
  }

  /** A drum track's name ends in "_Percussion.mid". */
  lemma DrumNameSuffix(file: string, k: nat, inst: Instrument, nameOf: Program -> string)
    requires inst.isDrum
    ensures var name := PartName(file, k, inst, nameOf);
      |name| >= 15 && name[|name| - 15..] == "_Percussion.mid"
  {
    var name := PartName(file, k, inst, nameOf);
    var prefix := file + "_part_" + NatToString(k);
    assert name == prefix + "_Percussion.mid";
  }

  /** The file written for one instrument: with uniform tempo, a fresh file
      at the rounded initial tempo with the original time signatures;
      otherwise a copy of the whole file keeping its tempo map. Either way
      the instrument is the only one. */
  function PartFile(midi: MidiFile, inst: Instrument, uniformTempo: bool, tempo: int): (f: MidiFile)
    ensures f.instruments == [inst]
    ensures f.timeSignatures == midi.timeSignatures
    ensures uniformTempo ==> f.tempoChanges == [TempoChange(0.0, tempo as real)]
    ensures !uniformTempo ==> f.tempoChanges == midi.tempoChanges
  {
    if uniformTempo then MidiFile([TempoChange(0.0, tempo as real)], midi.timeSignatures, [inst])
    else MidiFile(midi.tempoChanges, midi.timeSignatures, [inst])
  }

  /** The names given to the instruments of one file. */
  ghost function NameSet(file: string, insts: seq<Instrument>, nameOf: Program -> string, n: nat): set<string>
    requires n <= |insts|
  {
    set k | 0 <= k < n :: PartName(file, k, insts[k], nameOf)
  }

  lemma NameInSet(file: string, insts: seq<Instrument>, nameOf: Program -> string, n: nat)
    requires n <= |insts|
    ensures forall k :: 0 <= k < n ==> PartName(file, k, insts[k], nameOf) in NameSet(file, insts, nameOf, n)
  {
  }

  /** The `n`-th name is new among the first `n`. */
  lemma NameSetStep(file: string, insts: seq<Instrument>, nameOf: Program -> string, n: nat)
    requires 0 < n <= |insts|
    ensures NameSet(file, insts, nameOf, n) == NameSet(file, insts, nameOf, n - 1) + {PartName(file, n - 1, insts[n - 1], nameOf)}
    ensures forall k :: 0 <= k < n - 1 ==> PartName(file, k, insts[k], nameOf) != PartName(file, n - 1, insts[n - 1], nameOf)
    ensures PartName(file, n - 1, insts[n - 1], nameOf) !in NameSet(file, insts, nameOf, n - 1)
  {
    var name := PartName(file, n - 1, insts[n - 1], nameOf);
    forall k | 0 <= k < n - 1
      ensures PartName(file, k, insts[k], nameOf) != name
    {
      if PartName(file, k, insts[k], nameOf) == name {
        PartNamesDistinct(file, k, insts[k], n - 1, insts[n - 1], nameOf);
      }
    }
  }

  /** The dictionary after the first `n` instruments of `file`: each name is
      bound to its instrument's record, overwriting any earlier binding. */
  function RegisterUpTo(dict: map<string, InstrumentRecord>, file: string, insts: seq<Instrument>, nameOf: Program -> string, n: nat)
    : (d: map<string, InstrumentRecord>)
    requires n <= |insts|
    ensures d.Keys == dict.Keys + NameSet(file, insts, nameOf, n)
  {
    if n == 0 then dict
    else
      NameSetStep(file, insts, nameOf, n);
      RegisterUpTo(dict, file, insts, nameOf, n - 1)[PartName(file, n - 1, insts[n - 1], nameOf) := Record(insts[n - 1])]
  }

  /** Every instrument's name ends up bound to its own record: no later
      instrument of the file overwrites it. */
  lemma {:induction false} RegisteredRecord(dict: map<string, InstrumentRecord>, file: string, insts: seq<Instrument>, nameOf: Program -> string, n: nat, k: nat)
    requires k < n <= |insts|
    ensures PartName(file, k, insts[k], nameOf) in RegisterUpTo(dict, file, insts, nameOf, n)
    ensures RegisterUpTo(dict, file, insts, nameOf, n)[PartName(file, k, insts[k], nameOf)] == Record(insts[k])
    decreases n
  {
    var before := RegisterUpTo(dict, file, insts, nameOf, n - 1);
    var last := PartName(file, n - 1, insts[n - 1], nameOf);
    if k < n - 1 {
      RegisteredRecord(dict, file, insts, nameOf, n - 1, k);
      PartNamesDiffer(file, k, insts[k], n - 1, insts[n - 1], nameOf);
      UpdateKeeps(before, last, Record(insts[n - 1]), PartName(file, k, insts[k], nameOf));
    }
  }

  lemma UpdateKeeps<K, V>(m: map<K, V>, a: K, v: V, b: K)
    requires b in m && a != b
    ensures b in m[a := v] && m[a := v][b] == m[b]
  {
  }

  /** Bindings for other names are left as they were. */
  lemma {:induction false} RegisterKeepsOthers(dict: map<string, InstrumentRecord>, file: string, insts: seq<Instrument>, nameOf: Program -> string, n: nat, key: string)
    requires n <= |insts|
    requires key in dict && key !in NameSet(file, insts, nameOf, n)
    ensures RegisterUpTo(dict, file, insts, nameOf, n)[key] == dict[key]
    decreases n
  {
    if n > 0 {
      assert PartName(file, n - 1, insts[n - 1], nameOf) in NameSet(file, insts, nameOf, n);
      forall k | 0 <= k < n - 1 ensures PartName(file, k, insts[k], nameOf) != key {
        assert PartName(file, k, insts[k], nameOf) in NameSet(file, insts, nameOf, n);
      }
      RegisterKeepsOthers(dict, file, insts, nameOf, n - 1, key);
    }
  }

  /** `split_midi`: the initial tempo is rounded, then every instrument gets
      an ordinal, a name, a dictionary entry and a file of its own. The
      `extractDrums` switch is not consulted. */
  function SplitMidi(s: MidiSplitter, file: string, midi: MidiFile, nameOf: Program -> string): (r: Result<Split, SplitError>)
    ensures r.Failure? <==> |midi.tempoChanges| == 0
    ensures r.Success? ==> |r.value.written| == |midi.instruments|
    ensures r.Success? ==> forall k :: 0 <= k < |midi.instruments| ==>
              var out := r.value.written[k];
              && out.name == PartName(file, k, midi.instruments[k], nameOf)
              && out.file.instruments == [midi.instruments[k]]
              && out.file.timeSignatures == midi.timeSignatures
              && (s.uniformTempo ==> out.file.tempoChanges == [TempoChange(0.0, RoundHalfEven(midi.tempoChanges[0].bpm) as real)])
              && (!s.uniformTempo ==> out.file.tempoChanges == midi.tempoChanges)
              && out.name in r.value.splitter.instruments
              && r.value.splitter.instruments[out.name] == Record(midi.instruments[k])
    ensures r.Success? ==> r.value.splitter.instruments.Keys == s.instruments.Keys + NameSet(file, midi.instruments, nameOf, |midi.instruments|)
    ensures r.Success? ==> forall key | key in s.instruments && key !in NameSet(file, midi.instruments, nameOf, |midi.instruments|) ::
              r.value.splitter.instruments[key] == s.instruments[key]
    ensures r.Success? ==> r.value.splitter.uniformTempo == s.uniformTempo && r.value.splitter.extractDrums == s.extractDrums
  {
    if |midi.tempoChanges| == 0 then Failure(NoTempo(file))
    else
      var tempo := RoundHalfEven(midi.tempoChanges[0].bpm);
      var insts := midi.instruments;
      var written := seq(|insts|, k requires 0 <= k < |insts| =>
        Output(PartName(file, k, insts[k], nameOf), PartFile(midi, insts[k], s.uniformTempo, tempo)));
      var dict := RegisterUpTo(s.instruments, file, insts, nameOf, |insts|);
      forall k | 0 <= k < |insts|
        ensures PartName(file, k, insts[k], nameOf) in dict && dict[PartName(file, k, insts[k], nameOf)] == Record(insts[k])
      {
        RegisteredRecord(s.instruments, file, insts, nameOf, |insts|, k);
      }
      forall key | key in s.instruments && key !in NameSet(file, insts, nameOf, |insts|)
        ensures dict[key] == s.instruments[key]
      {
        RegisterKeepsOthers(s.instruments, file, insts, nameOf, |insts|, key);
      }
      Success(Split(s.(instruments := dict), written))
  }

  /** A file's `n` first instruments get `n` different names. */
  lemma {:induction false} NameSetSize(file: string, insts: seq<Instrument>, nameOf: Program -> string, n: nat)
    requires n <= |insts|
    ensures |NameSet(file, insts, nameOf, n)| == n
    decreases n
  {
    if n > 0 {
      NameSetSize(file, insts, nameOf, n - 1);
      NameSetStep(file, insts, nameOf, n);
    }
  }

  /** Splitting a file whose names are new to the dictionary adds exactly
      one entry per instrument. */
  lemma OneEntryPerInstrument(s: MidiSplitter, file: string, midi: MidiFile, nameOf: Program -> string)
    requires |midi.tempoChanges| > 0
    requires forall k :: 0 <= k < |midi.instruments| ==> PartName(file, k, midi.instruments[k], nameOf) !in s.instruments
    ensures |SplitMidi(s, file, midi, nameOf).value.splitter.instruments| == |s.instruments| + |midi.instruments|
  {
    var insts := midi.instruments;
    var added := NameSet(file, insts, nameOf, |insts|);
    NameSetSize(file, insts, nameOf, |insts|);
    assert s.instruments.Keys !! added by {
      forall x | x in added ensures x !in s.instruments {
        var k :| 0 <= k < |insts| && x == PartName(file, k, insts[k], nameOf);
      }
    }
    var d := SplitMidi(s, file, midi, nameOf).value.splitter.instruments;
    assert d.Keys == s.instruments.Keys + added;
    assert |d.Keys| == |s.instruments.Keys| + |added|;
  }

  /** The drum switch has no effect on splitting. */
  lemma SplitIgnoresExtractDrums(s: MidiSplitter, file: string, midi: MidiFile, nameOf: Program -> string, b: bool)
    requires |midi.tempoChanges| > 0
    ensures SplitMidi(s.(extractDrums := b), file, midi, nameOf).value.written == SplitMidi(s, file, midi, nameOf).value.written
    ensures SplitMidi(s.(extractDrums := b), file, midi, nameOf).value.splitter.instruments
         == SplitMidi(s, file, midi, nameOf).value.splitter.instruments
  {
  }

  /** `drum_splitter_status` and `uniform_tempo_status`. */
  function Status(on: bool): (t: string)
    ensures t == "enabled" <==> on
    ensures t == "disabled" <==> !on
  {
    if on then "enabled" else "disabled"
  }

  /** `clear_dict`: the dictionary emptied, the switches kept. */
  function ClearDict(s: MidiSplitter): (r: MidiSplitter)
    ensures |r.instruments| == 0
    ensures r.uniformTempo == s.uniformTempo && r.extractDrums == s.extractDrums
  {
    s.(instruments := map[])
  }

  /** A music21 instrument object: one the parser made up, or one carrying a
      recorded editorial comment. */
  datatype PartInstrument = Parsed(name: string) | Commented(record: InstrumentRecord)

  datatype Placed = Placed(offset: real, instrument: PartInstrument)

  /** A music21 part of a parsed split file: its instruments with their
      offsets, its notes, and the voices not yet flattened. */
  datatype Part = Part(instruments: seq<Placed>, notes: seq<Note>, voices: seq<seq<Note>>)

  /** The handler's state: its splitter and the prepared sequences. */
  datatype MidiHandler = MidiHandler(splitter: MidiSplitter, sequences: seq<seq<Part>>)

  const DefaultHandler: MidiHandler := MidiHandler(DefaultSplitter, [])

  function ToggleDrumSplitter(h: MidiHandler): (r: MidiHandler)
    ensures r.splitter.extractDrums == !h.splitter.extractDrums
    ensures r.splitter.uniformTempo == h.splitter.uniformTempo && r.splitter.instruments == h.splitter.instruments
    ensures r.sequences == h.sequences
  {
    h.(splitter := h.splitter.(extractDrums := !h.splitter.extractDrums))
  }

  function ToggleUniformTempo(h: MidiHandler): (r: MidiHandler)
    ensures r.splitter.uniformTempo == !h.splitter.uniformTempo
    ensures r.splitter.extractDrums == h.splitter.extractDrums && r.splitter.instruments == h.splitter.instruments
    ensures r.sequences == h.sequences
  {
    h.(splitter := h.splitter.(uniformTempo := !h.splitter.uniformTempo))
  }

  /** Toggling twice restores the handler. */
  lemma TogglesInvolutive(h: MidiHandler)
    ensures ToggleDrumSplitter(ToggleDrumSplitter(h)) == h
    ensures ToggleUniformTempo(ToggleUniformTempo(h)) == h
    ensures Status(ToggleDrumSplitter(h).splitter.extractDrums) != Status(h.splitter.extractDrums)
  {
  }

  /** `clear_data`: no sequences and a fresh splitter, whatever the state. */
  function ClearData(h: MidiHandler): (r: MidiHandler)
    ensures r.sequences == [] && |r.splitter.instruments| == 0
    ensures r.splitter.uniformTempo && r.splitter.extractDrums
  {
    DefaultHandler
  }

  /** `flattenUnnecessaryVoices` lifting the notes of every voice into the
      part: each note of each voice ends up in the result, and nothing else. */
  function Flatten(voices: seq<seq<Note>>): (ns: seq<Note>)
    ensures forall v, n | v in voices && n in v :: n in ns
    ensures multiset(ns) == Bag(voices)
  {
    if |voices| == 0 then [] else voices[0] + Flatten(voices[1..])
  }

  /** The instrument a split file gets back: its recorded one, or the
      default record when the name is unknown. */
  function RecordFor(dict: map<string, InstrumentRecord>, file: string): (r: InstrumentRecord)
    ensures file in dict ==> r == dict[file]
    ensures file !in dict ==> r == DefaultRecord
  {
    if file in dict then dict[file] else DefaultRecord
  }

  /** One part of `__reassign_program`: every instrument removed, the
      recorded one inserted at offset 0, voices flattened. */
  function ReassignPart(p: Part, dict: map<string, InstrumentRecord>, file: string): (r: Part)
    ensures r.instruments == [Placed(0.0, Commented(RecordFor(dict, file)))]
    ensures r.voices == []
    ensures forall n | n in p.notes :: n in r.notes
    ensures forall v, n | v in p.voices && n in v :: n in r.notes
    ensures multiset(r.notes) == multiset(p.notes) + Bag(p.voices)
    ensures |p.voices| == 0 ==> r.notes == p.notes
  {
    var q := p.(instruments := [Placed(0.0, Commented(RecordFor(dict, file)))]);
    if |p.voices| > 0 then q.(notes := p.notes + Flatten(p.voices), voices := []) else q
  }

  /** `__reassign_program` over every part of a parsed split file. */
  function ReassignProgram(sequence: seq<Part>, dict: map<string, InstrumentRecord>, file: string): (r: seq<Part>)
    ensures |r| == |sequence|
    ensures forall i :: 0 <= i < |r| ==> r[i] == ReassignPart(sequence[i], dict, file)
  {
    seq(|sequence|, i requires 0 <= i < |sequence| => ReassignPart(sequence[i], dict, file))
  }

  /** Afterwards every part holds exactly one instrument, at offset 0, and
      it is the recorded one or the default. */
  lemma ReassignedInstruments(sequence: seq<Part>, dict: map<string, InstrumentRecord>, file: string, i: nat)
    requires i < |sequence|
    ensures |ReassignProgram(sequence, dict, file)[i].instruments| == 1
    ensures ReassignProgram(sequence, dict, file)[i].instruments[0].offset == 0.0
    ensures file in dict ==> ReassignProgram(sequence, dict, file)[i].instruments[0].instrument == Commented(dict[file])
    ensures file !in dict ==> ReassignProgram(sequence, dict, file)[i].instruments[0].instrument == Commented(DefaultRecord)
  {
  }

  /** Reassigning twice is reassigning once. */
  lemma ReassignIdempotent(sequence: seq<Part>, dict: map<string, InstrumentRecord>, file: string)
    ensures ReassignProgram(ReassignProgram(sequence, dict, file), dict, file) == ReassignProgram(sequence, dict, file)
  {
    var once := ReassignProgram(sequence, dict, file);
    var twice := ReassignProgram(once, dict, file);
    forall i | 0 <= i < |once| ensures twice[i] == once[i] {
      assert once[i].voices == [];
    }
  }

  /** A file split and then parsed back gets the instrument recorded for it:
      its program string parses back to the track's program number. */
  lemma SplitThenReassign(s: MidiSplitter, file: string, midi: MidiFile, nameOf: Program -> string, k: nat, sequence: seq<Part>, i: nat)
    requires |midi.tempoChanges| > 0
    requires k < |midi.instruments| && i < |sequence|
    ensures var sp := SplitMidi(s, file, midi, nameOf).value;
      var placed := ReassignProgram(sequence, sp.splitter.instruments, sp.written[k].name)[i].instruments;
      && placed == [Placed(0.0, Commented(Record(midi.instruments[k])))]
      && ParseNat(placed[0].instrument.record.trueProgram) == Some(midi.instruments[k].program as nat)
  {
  }
}
