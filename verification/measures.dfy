/** The measure encoder of StreamHandler.py: every part is cut into measures,
    each non-empty measure becomes a block of `length + 1` rows of `width`
    numbers (a tag line describing the measure, then one row per note or
    chord), and consecutive blocks are paired as input and target when the
    second starts exactly one measure after the first. */
module Measures {
  import opened Results
  import opened Decimal
  import opened Seqs

  type Row = seq<real>
  type Block = seq<Row>

  type Positive = n: nat | n >= 1 witness 1

  /** A time signature; music21 denominators are never zero. */
  datatype TimeSignature = TimeSignature(numerator: nat, denominator: Positive)

  /** A note or chord of a measure: its offset in the measure, its length in
      quarters, and the MIDI numbers of its pitches. */
  datatype NoteEvent = NoteEvent(offset: real, quarterLength: real, midis: seq<int>)

  /** A measure as `makeMeasures` delivers it; `notes` is already in the order
      of `measure.notes.sorted`. */
  datatype Measure = Measure(offset: real, highestOffset: real, timeSignature: Option<TimeSignature>, notes: seq<NoteEvent>)

  /** The editorial comment the splitter attaches to an instrument: the
      program and the drum flag, both as strings. */
  datatype Comment = Comment(trueProgram: string, isDrum: string)

  /** One part: its measures, its first tempo mark, its own time signature
      (`part.timeSignature`, missing when the part carries none), and the
      first editorial comment of its instrument (missing when the instrument
      never went through the reassignment and carries none). */
  datatype Part = Part(measures: seq<Measure>, tempo: real, signature: Option<TimeSignature>, comment: Option<Comment>)

  /** A loaded sequence: a score, of which only the first part is read. */
  datatype Score = Score(parts: seq<Part>)

  /** The per-part values repeated in every tag line. */
  datatype Header = Header(program: real, drum: real, tempo: real)

  /** What aborts `prepare_data`, in the order the code meets them:
      `sequence[0]` on a score without parts and `comments[0]` on an
      instrument without comment (both `IndexError`), `float(true_program)`
      on a string that is not a number, and `time_signature.numerator` read
      while no time signature is in force (`AttributeError` on `None`). */
  datatype StreamError = NoPart | NoComment | BadProgram(text: string) | NoTimeSignature

  /** The object state: the loaded scores and the two output lists. */
  datatype StreamHandler = StreamHandler(sequences: seq<Score>, input: seq<Block>, target: seq<Block>)

  /** The smallest width that holds a tag line. */
  const TagWidth: nat := 6

  function Zeros(n: nat): (z: Row)
    ensures |z| == n
    ensures forall i :: 0 <= i < n ==> z[i] == 0.0
  {
    seq(n, i => 0.0)
  }

  /** The padding loops: append `filler` until the list has `n` entries, or
      pop entries off the end until it has. */
  function Fit<T>(xs: seq<T>, n: nat, filler: T): (r: seq<T>)
    ensures |r| == n
    ensures forall i :: 0 <= i < n ==> r[i] == if i < |xs| then xs[i] else filler
    decreases if |xs| < n then n - |xs| else |xs| - n
  {
    if |xs| < n then Fit(xs + [filler], n, filler)
    else if |xs| > n then Fit(xs[..|xs| - 1], n, filler)
    else xs
  }

  function Reals(ns: seq<int>): (r: seq<real>)
    ensures |r| == |ns|
    ensures forall i :: 0 <= i < |ns| ==> r[i] == ns[i] as real
  {
    seq(|ns|, i requires 0 <= i < |ns| => ns[i] as real)
  }

  /** The row of a note or chord: offset, quarter length and pitch numbers,
      zero-padded or cut from the end to `width`. */
  function NoteRow(n: NoteEvent, width: nat): (r: Row)
    ensures |r| == width
    ensures width >= 2 ==> r[0] == n.offset && r[1] == n.quarterLength
    ensures forall j :: 0 <= j < |n.midis| && 2 + j < width ==> r[2 + j] == n.midis[j] as real
    ensures forall j :: 2 + |n.midis| <= j < width ==> r[j] == 0.0
  {
    Fit([n.offset, n.quarterLength] + Reals(n.midis), width, 0.0)
  }

  /** The tag line: measure offset, program, drum flag, tempo, numerator and
      denominator, followed by `width - 6` zeros. */
  function TagLine(offset: real, h: Header, ts: TimeSignature, width: nat): (r: Row)
    requires width >= TagWidth
    ensures |r| == width
    ensures r[0] == offset && r[1] == h.program && r[2] == h.drum && r[3] == h.tempo
    ensures r[4] == ts.numerator as real && r[5] == ts.denominator as real
    ensures forall j :: TagWidth <= j < width ==> r[j] == 0.0
  {
    [offset, h.program, h.drum, h.tempo, ts.numerator as real, ts.denominator as real] + Zeros(width - TagWidth)
  }

  function NoteRows(ns: seq<NoteEvent>, width: nat): (rs: seq<Row>)
    ensures |rs| == |ns|
    ensures forall i :: 0 <= i < |ns| ==> rs[i] == NoteRow(ns[i], width)
  {
    seq(|ns|, i requires 0 <= i < |ns| => NoteRow(ns[i], width))
  }

  /** Every row has `width` entries and there are `length + 1` rows. */
  predicate Shaped(b: Block, length: nat, width: nat) {
    |b| == length + 1 && forall i :: 0 <= i < |b| ==> |b[i]| == width
  }

  /** Padding or cutting a tag line and its note rows to `length + 1` rows. */
  lemma FitRows(tag: Row, notes: seq<Row>, length: nat, width: nat, b: Block)
    requires |tag| == width
    requires forall j :: 0 <= j < |notes| ==> |notes[j]| == width
    requires b == Fit([tag] + notes, length + 1, Zeros(width))
    ensures Shaped(b, length, width)
    ensures b[0] == tag
    ensures forall j :: 1 <= j <= length ==> b[j] == if j - 1 < |notes| then notes[j - 1] else Zeros(width)
  {
    var rows := [tag] + notes;
    assert forall j :: 1 <= j < |rows| ==> rows[j] == notes[j - 1];
    assert forall j :: 0 <= j < |rows| ==> |rows[j]| == width;
  }

  /** The subsequence of one measure: the tag line, then the note rows, then
      zero rows, cut or padded to `length + 1` rows. */
  function MeasureBlock(m: Measure, ts: TimeSignature, h: Header, length: nat, width: nat): (b: Block)
    requires width >= TagWidth
    ensures Shaped(b, length, width) && Tagged(b)
    ensures b[0] == TagLine(m.offset, h, ts, width)
    ensures forall j :: 1 <= j <= length ==>
              b[j] == if j - 1 < |m.notes| then NoteRow(m.notes[j - 1], width) else Zeros(width)
  {
    var tag := TagLine(m.offset, h, ts, width);
    var notes := NoteRows(m.notes, width);
    var b := Fit([tag] + notes, length + 1, Zeros(width));
    FitRows(tag, notes, length, width, b);
    b
  }

  /** Blocks whose tag line the pairing loop can read: a tag line of at
      least six entries with a non-zero denominator. */
  predicate Tagged(b: Block) {
    |b| >= 1 && |b[0]| >= TagWidth && b[0][5] != 0.0
  }

  predicate Empty(m: Measure) {
    m.highestOffset == 0.0
  }

  /** The blocks built so far and the time signature in force. */
  datatype Walk = Walk(blocks: seq<Block>, signature: TimeSignature)

  /** The first `n` iterations of the measure loop. An empty measure is
      skipped before its time signature is looked at; a non-empty one that
      carries a signature makes it the one in force. */
  function WalkUpTo(ms: seq<Measure>, init: TimeSignature, h: Header, length: nat, width: nat, n: nat): (w: Walk)
    requires width >= TagWidth
    requires n <= |ms|
    ensures |w.blocks| <= n
    ensures forall k :: 0 <= k < |w.blocks| ==> Shaped(w.blocks[k], length, width) && Tagged(w.blocks[k])
  {
    if n == 0 then Walk([], init)
    else
      var w := WalkUpTo(ms, init, h, length, width, n - 1);
      var m := ms[n - 1];
      if Empty(m) then w
      else
        var ts := if m.timeSignature.Some? then m.timeSignature.value else w.signature;
        Walk(w.blocks + [MeasureBlock(m, ts, h, length, width)], ts)
  }

  /** The subsequences of a part's measures. */
  function MeasureBlocks(ms: seq<Measure>, init: TimeSignature, h: Header, length: nat, width: nat): (bs: seq<Block>)
    requires width >= TagWidth
    ensures |bs| <= |ms|
    ensures forall k :: 0 <= k < |bs| ==> Shaped(bs[k], length, width) && Tagged(bs[k])
  {
    WalkUpTo(ms, init, h, length, width, |ms|).blocks
  }

  /** The measure loop as written: a loop over the measures that keeps the
      subsequence list and the time signature in force. */
  method MeasureLoop(ms: seq<Measure>, init: TimeSignature, h: Header, length: nat, width: nat)
    returns (subsequences: seq<Block>)
    requires width >= TagWidth
    ensures |subsequences| <= |ms|
    ensures forall k :: 0 <= k < |subsequences| ==> Shaped(subsequences[k], length, width)
    ensures subsequences == MeasureBlocks(ms, init, h, length, width)
  {
    subsequences := [];
    var signature := init;
    var i := 0;
    while i < |ms|
      invariant 0 <= i <= |ms|
      invariant Walk(subsequences, signature) == WalkUpTo(ms, init, h, length, width, i)
    {
      var m := ms[i];
      if !Empty(m) {
        if m.timeSignature.Some? {
          signature := m.timeSignature.value;
        }
        subsequences := subsequences + [MeasureBlock(m, signature, h, length, width)];
      }
      i := i + 1;
    }
  }

  /** The non-empty measures, in order. */
  function NonEmpty(ms: seq<Measure>): (r: seq<Measure>)
    ensures |r| <= |ms|
    ensures forall m | m in r :: m in ms && !Empty(m)
    ensures forall i | 0 <= i < |ms| && !Empty(ms[i]) :: ms[i] in r
  {
    if |ms| == 0 then []
    else
      assert forall i | 0 <= i < |ms| - 1 :: ms[i] == ms[..|ms| - 1][i];
      if Empty(ms[|ms| - 1]) then NonEmpty(ms[..|ms| - 1])
      else NonEmpty(ms[..|ms| - 1]) + [ms[|ms| - 1]]
  }

  lemma NonEmptyLast(ms: seq<Measure>)
    requires |ms| > 0
    ensures NonEmpty(ms) == NonEmpty(ms[..|ms| - 1]) + (if Empty(ms[|ms| - 1]) then [] else [ms[|ms| - 1]])
  {
  }

  /** Exactly the empty measures go: every other measure is kept as often as
      it occurs. */
  lemma {:induction false} NonEmptyCounts(ms: seq<Measure>)
    ensures forall m :: multiset(NonEmpty(ms))[m] == if Empty(m) then 0 else multiset(ms)[m]
  {
    if |ms| > 0 {
      NonEmptyCounts(ms[..|ms| - 1]);
      assert ms == ms[..|ms| - 1] + [ms[|ms| - 1]];
    }
  }

  /** Dropping empty measures works piece by piece, so the kept measures stay
      in their original order. */
  lemma {:induction false} NonEmptyAppend(a: seq<Measure>, b: seq<Measure>)
    ensures NonEmpty(a + b) == NonEmpty(a) + NonEmpty(b)
    decreases |b|
  {
    if |b| == 0 {
      assert a + b == a;
    } else {
      var front, last := b[..|b| - 1], b[|b| - 1];
      var tail: seq<Measure> := if Empty(last) then [] else [last];
      assert NonEmpty(a + b) == NonEmpty(a + front) + tail by {
        assert (a + b)[..|a + b| - 1] == a + front;
        assert (a + b)[|a + b| - 1] == last;
        NonEmptyLast(a + b);
      }
      assert NonEmpty(b) == NonEmpty(front) + tail by {
        NonEmptyLast(b);
      }
      NonEmptyAppend(a, front);
      assert (NonEmpty(a) + NonEmpty(front)) + tail == NonEmpty(a) + (NonEmpty(front) + tail);
    }
  }

  /** Empty measures contribute nothing, not even their time signature:
      dropping them beforehand gives the same blocks. */
  lemma {:induction false} EmptyMeasuresIgnored(ms: seq<Measure>, init: TimeSignature, h: Header, length: nat, width: nat)
    requires width >= TagWidth
    ensures WalkUpTo(ms, init, h, length, width, |ms|) == WalkUpTo(NonEmpty(ms), init, h, length, width, |NonEmpty(ms)|)
    decreases |ms|
  {
    if |ms| > 0 {
      var front := ms[..|ms| - 1];
      EmptyMeasuresIgnored(front, init, h, length, width);
      WalkPrefix(ms, init, h, length, width, |ms| - 1);
      var ne := NonEmpty(ms);
      if !Empty(ms[|ms| - 1]) {
        assert ne[..|ne| - 1] == NonEmpty(front);
        WalkPrefix(ne, init, h, length, width, |ne| - 1);
      }
    }
  }

  /** The walk over the first `n` measures only looks at those measures. */
  lemma {:induction false} WalkPrefix(ms: seq<Measure>, init: TimeSignature, h: Header, length: nat, width: nat, n: nat)
    requires width >= TagWidth
    requires n <= |ms|
    ensures WalkUpTo(ms, init, h, length, width, n) == WalkUpTo(ms[..n], init, h, length, width, n)
    decreases n
  {
    if n > 0 {
      WalkPrefix(ms, init, h, length, width, n - 1);
      WalkPrefix(ms[..n], init, h, length, width, n - 1);
      assert ms[..n][..n - 1] == ms[..n - 1];
    }
  }

  /** The time signature in force at measure `k` of a list of non-empty
      measures: the nearest one at or before `k`, or the part's initial one. */
  function SignatureAt(ms: seq<Measure>, init: TimeSignature, k: nat): TimeSignature
    requires k < |ms|
  {
    if ms[k].timeSignature.Some? then ms[k].timeSignature.value
    else if k == 0 then init
    else SignatureAt(ms, init, k - 1)
  }

  /** Over non-empty measures, block `k` is measure `k` encoded with the time
      signature in force there. */
  lemma {:induction false} BlocksOfNonEmpty(ms: seq<Measure>, init: TimeSignature, h: Header, length: nat, width: nat, n: nat)
    requires width >= TagWidth
    requires n <= |ms|
    requires forall i :: 0 <= i < |ms| ==> !Empty(ms[i])
    ensures |WalkUpTo(ms, init, h, length, width, n).blocks| == n
    ensures n > 0 ==> WalkUpTo(ms, init, h, length, width, n).signature == SignatureAt(ms, init, n - 1)
    ensures forall k :: 0 <= k < n ==>
              WalkUpTo(ms, init, h, length, width, n).blocks[k] == MeasureBlock(ms[k], SignatureAt(ms, init, k), h, length, width)
    decreases n
  {
    if n > 0 {
      BlocksOfNonEmpty(ms, init, h, length, width, n - 1);
    }
  }

  /** A part's subsequences are its non-empty measures in order, each
      encoded with the time signature in force at it. */
  lemma MeasureBlocksContents(ms: seq<Measure>, init: TimeSignature, h: Header, length: nat, width: nat)
    requires width >= TagWidth
    ensures |MeasureBlocks(ms, init, h, length, width)| == |NonEmpty(ms)|
    ensures forall k :: 0 <= k < |NonEmpty(ms)| ==>
              MeasureBlocks(ms, init, h, length, width)[k] == MeasureBlock(NonEmpty(ms)[k], SignatureAt(NonEmpty(ms), init, k), h, length, width)
  {
    var ne := NonEmpty(ms);
    EmptyMeasuresIgnored(ms, init, h, length, width);
    assert forall i :: 0 <= i < |ne| ==> !Empty(ne[i]) by {
      assert forall i :: 0 <= i < |ne| ==> ne[i] in ne;
    }
    BlocksOfNonEmpty(ne, init, h, length, width, |ne|);
  }

  /** `b` starts exactly one measure after `a`: its offset is `a`'s offset
      plus `numerator / denominator * 4` quarters, read from `a`'s tag line. */
  predicate Follows(a: Block, b: Block)
    requires Tagged(a) && Tagged(b)
  {
    b[0][0] == MeasureEnd(a)
  }

  /** The offset one measure after the start of `a`. */
  function MeasureEnd(a: Block): real
    requires Tagged(a)
  {
    a[0][0] + a[0][4] / a[0][5] * 4.0
  }

  /** The positions `i` among the first `n` subsequences where `subs[i]`
      becomes a target (and `subs[i - 1]` its input). Position 0 is never one;
      `TargetIndicesComplete` shows every following position is one. */
  function TargetIndices(subs: seq<Block>, n: nat): (ix: seq<nat>)
    requires n <= |subs|
    requires forall i :: 0 <= i < |subs| ==> Tagged(subs[i])
    ensures forall k :: 0 <= k < |ix| ==> 1 <= ix[k] < n && Follows(subs[ix[k] - 1], subs[ix[k]])
    ensures forall k, l :: 0 <= k < l < |ix| ==> ix[k] < ix[l]
  {
    if n <= 1 then []
    else
      var ix := TargetIndices(subs, n - 1);
      if Follows(subs[n - 2], subs[n - 1]) then ix + [n - 1] else ix
  }

  /** No following position is missed. */
  lemma {:induction false} TargetIndicesComplete(subs: seq<Block>, n: nat, i: nat)
    requires n <= |subs|
    requires forall j :: 0 <= j < |subs| ==> Tagged(subs[j])
    requires 1 <= i < n && Follows(subs[i - 1], subs[i])
    ensures i in TargetIndices(subs, n)
    decreases n
  {
    if i < n - 1 {
      TargetIndicesComplete(subs, n - 1, i);
    }
  }

  /** The input and target lists one part contributes: for each target
      position, the subsequence before it and the subsequence itself. */
  function PairsUpTo(subs: seq<Block>, n: nat): (p: Pairs<Block>)
    requires n <= |subs|
    requires forall i :: 0 <= i < |subs| ==> Tagged(subs[i])
    ensures |p.inputs| == |p.targets| == |TargetIndices(subs, n)|
    ensures forall k :: 0 <= k < |p.inputs| ==>
              p.inputs[k] == subs[TargetIndices(subs, n)[k] - 1] && p.targets[k] == subs[TargetIndices(subs, n)[k]]
  {
    var ix := TargetIndices(subs, n);
    Pairs(seq(|ix|, k requires 0 <= k < |ix| => subs[ix[k] - 1]), seq(|ix|, k requires 0 <= k < |ix| => subs[ix[k]]))
  }

  /** A following subsequence adds the pair ending at it. */
  lemma PairsStepFollows(subs: seq<Block>, n: nat)
    requires 1 <= n < |subs|
    requires forall i :: 0 <= i < |subs| ==> Tagged(subs[i])
    requires Follows(subs[n - 1], subs[n])
    ensures PairsUpTo(subs, n + 1) == Pairs(PairsUpTo(subs, n).inputs + [subs[n - 1]], PairsUpTo(subs, n).targets + [subs[n]])
  {
    var ix := TargetIndices(subs, n);
    assert TargetIndices(subs, n + 1) == ix + [n];
    InputsStep(subs, n, ix);
    TargetsStep(subs, n, ix);
  }

  lemma InputsStep(subs: seq<Block>, n: nat, ix: seq<nat>)
    requires 1 <= n < |subs|
    requires forall i :: 0 <= i < |subs| ==> Tagged(subs[i])
    requires ix == TargetIndices(subs, n) && TargetIndices(subs, n + 1) == ix + [n]
    ensures PairsUpTo(subs, n + 1).inputs == PairsUpTo(subs, n).inputs + [subs[n - 1]]
  {
    var a := PairsUpTo(subs, n).inputs;
    var b := PairsUpTo(subs, n + 1).inputs;
    var jx := ix + [n];
    forall k | 0 <= k < |b| ensures b[k] == (a + [subs[n - 1]])[k] {
      if k < |ix| {
        assert jx[k] == ix[k];
      }
    }
  }

  lemma TargetsStep(subs: seq<Block>, n: nat, ix: seq<nat>)
    requires 1 <= n < |subs|
    requires forall i :: 0 <= i < |subs| ==> Tagged(subs[i])
    requires ix == TargetIndices(subs, n) && TargetIndices(subs, n + 1) == ix + [n]
    ensures PairsUpTo(subs, n + 1).targets == PairsUpTo(subs, n).targets + [subs[n]]
  {
    var a := PairsUpTo(subs, n).targets;
    var b := PairsUpTo(subs, n + 1).targets;
    var jx := ix + [n];
    forall k | 0 <= k < |b| ensures b[k] == (a + [subs[n]])[k] {
      if k < |ix| {
        assert jx[k] == ix[k];
      }
    }
  }

  /** Any other subsequence adds nothing. */
  lemma PairsStepSkips(subs: seq<Block>, n: nat)
    requires n < |subs|
    requires forall i :: 0 <= i < |subs| ==> Tagged(subs[i])
    requires n == 0 || !Follows(subs[n - 1], subs[n])
    ensures PairsUpTo(subs, n + 1) == PairsUpTo(subs, n)
  {
    assert TargetIndices(subs, n + 1) == TargetIndices(subs, n);
  }

  /** The pairing loop as written, with `expected_offset` and
      `past_subsequence` as loop state. */
  method PairLoop(subs: seq<Block>) returns (p: Pairs<Block>)
    requires forall i :: 0 <= i < |subs| ==> Tagged(subs[i])
    ensures |p.inputs| == |p.targets|
    ensures p == PairsUpTo(subs, |subs|)
  {
    p := Pairs([], []);
    var expected := 0.0;
    var past: Option<Block> := None;
    var i := 0;
    while i < |subs|
      invariant 0 <= i <= |subs|
      invariant p == PairsUpTo(subs, i)
      invariant past == if i == 0 then None else Some(subs[i - 1])
      invariant i > 0 ==> expected == MeasureEnd(subs[i - 1])
    {
      var subsequence := subs[i];
      var current := subsequence[0][0];
      assert current == expected && past.Some? <==> i > 0 && Follows(subs[i - 1], subs[i]);
      if current == expected && past.Some? {
        PairsStepFollows(subs, i);
        assert past.value == subs[i - 1];
        p := Pairs(p.inputs + [past.value], p.targets + [subsequence]);
      } else {
        PairsStepSkips(subs, i);
      }
      past := Some(subsequence);
      expected := MeasureEnd(subsequence);
      i := i + 1;
    }
  }

  /** `is_drum == "True"` as a float. */
  function DrumFlag(s: string): (f: real)
    ensures f == 1.0 <==> s == "True"
    ensures f == 0.0 <==> s != "True"
  {
    if s == "True" then 1.0 else 0.0
  }

  /** The part `prepare_data` reads from a score: `sequence[0]`, which
      raises on a score without parts. */
  function FirstPart(sc: Score): (r: Result<Part, StreamError>)
    ensures r.Success? <==> |sc.parts| > 0
    ensures r.Success? ==> r.value == sc.parts[0]
    ensures r.Failure? ==> r.error == NoPart
  {
    if |sc.parts| == 0 then Failure(NoPart) else Success(sc.parts[0])
  }

  /** The tag-line values of a part; `comments[0]` raises on an instrument
      without comment, and `float(true_program)` on a string that is not a
      number. */
  function PartHeader(p: Part): (r: Result<Header, StreamError>)
    ensures r.Success? <==> p.comment.Some? && ParseNat(p.comment.value.trueProgram).Some?
    ensures r.Success? ==>
              r.value == Header(ParseNat(p.comment.value.trueProgram).value as real, DrumFlag(p.comment.value.isDrum), p.tempo)
    ensures p.comment.None? ==> r == Failure(NoComment)
    ensures p.comment.Some? && r.Failure? ==> r.error == BadProgram(p.comment.value.trueProgram)
  {
    match p.comment
    case None => Failure(NoComment)
    case Some(c) =>
      match ParseNat(c.trueProgram)
      case None => Failure(BadProgram(c.trueProgram))
      case Some(program) => Success(Header(program as real, DrumFlag(c.isDrum), p.tempo))
  }

  /** Every pair holds two well-shaped blocks, the target following the input. */
  predicate PairedBlocks(inputs: seq<Block>, targets: seq<Block>, length: nat, width: nat) {
    && |inputs| == |targets|
    && forall k :: 0 <= k < |inputs| ==>
         && Shaped(inputs[k], length, width) && Tagged(inputs[k])
         && Shaped(targets[k], length, width) && Tagged(targets[k])
         && Follows(inputs[k], targets[k])
  }

  lemma PairedPartBlocks(subs: seq<Block>, length: nat, width: nat)
    requires forall k :: 0 <= k < |subs| ==> Shaped(subs[k], length, width) && Tagged(subs[k])
    ensures PairedBlocks(PairsUpTo(subs, |subs|).inputs, PairsUpTo(subs, |subs|).targets, length, width)
  {
    var p := PairsUpTo(subs, |subs|);
    forall k | 0 <= k < |p.inputs|
      ensures Shaped(p.inputs[k], length, width) && Tagged(p.inputs[k])
      ensures Shaped(p.targets[k], length, width) && Tagged(p.targets[k])
      ensures Follows(p.inputs[k], p.targets[k])
    {
      PairedAt(subs, k);
    }
  }

  lemma PairedAt(subs: seq<Block>, k: nat)
    requires forall k :: 0 <= k < |subs| ==> Tagged(subs[k])
    requires k < |PairsUpTo(subs, |subs|).inputs|
    ensures exists i :: 1 <= i < |subs| && PairsUpTo(subs, |subs|).inputs[k] == subs[i - 1] && PairsUpTo(subs, |subs|).targets[k] == subs[i]
    ensures Follows(PairsUpTo(subs, |subs|).inputs[k], PairsUpTo(subs, |subs|).targets[k])
  {
    var i := TargetIndices(subs, |subs|)[k];
    assert 1 <= i < |subs| && Follows(subs[i - 1], subs[i]);
  }

  lemma PairedAppend(a: Pairs<Block>, b: Pairs<Block>, length: nat, width: nat)
    requires PairedBlocks(a.inputs, a.targets, length, width)
    requires PairedBlocks(b.inputs, b.targets, length, width)
    ensures PairedBlocks(a.inputs + b.inputs, a.targets + b.targets, length, width)
  {
    var ins := a.inputs + b.inputs;
    var outs := a.targets + b.targets;
    forall k | |a.inputs| <= k < |ins|
      ensures ins[k] == b.inputs[k - |a.inputs|] && outs[k] == b.targets[k - |a.inputs|]
    {
    }
  }

  /** The time signature in force when a part's first non-empty measure is
      encoded: that measure's own if it has one, else the part's own. The walk
      starts from the part's own signature, which may be missing; only
      non-empty measures read it, so the part fails exactly when neither is
      there. A part without non-empty measures never reads it, and starts
      from music21's default 4/4. */
  function StartSignature(p: Part): (r: Result<TimeSignature, StreamError>)
    ensures r.Failure? <==>
              p.signature.None? && |NonEmpty(p.measures)| > 0 && NonEmpty(p.measures)[0].timeSignature.None?
    ensures r.Failure? ==> r.error == NoTimeSignature
    ensures p.signature.Some? ==> r == Success(p.signature.value)
  {
    if p.signature.Some? then Success(p.signature.value)
    else if |NonEmpty(p.measures)| == 0 then Success(TimeSignature(4, 4))
    else
      match NonEmpty(p.measures)[0].timeSignature
      case Some(ts) => Success(ts)
      case None => Failure(NoTimeSignature)
  }

  lemma {:induction false} SignatureAtIgnoresStart(ms: seq<Measure>, a: TimeSignature, b: TimeSignature, k: nat)
    requires k < |ms|
    requires ms[0].timeSignature.Some?
    ensures SignatureAt(ms, a, k) == SignatureAt(ms, b, k)
  {
    if k > 0 && ms[k].timeSignature.None? {
      SignatureAtIgnoresStart(ms, a, b, k - 1);
    }
  }

  /** When a part has no time signature of its own but gets through, the
      value the walk starts from is never read: any two starting values give
      the same subsequences. So starting from `StartSignature` encodes the
      part exactly as starting from the missing one does. */
  lemma MissingStartUnread(p: Part, a: TimeSignature, b: TimeSignature, h: Header, length: nat, width: nat)
    requires width >= TagWidth
    requires p.signature.None? && StartSignature(p).Success?
    ensures MeasureBlocks(p.measures, a, h, length, width) == MeasureBlocks(p.measures, b, h, length, width)
  {
    var ne := NonEmpty(p.measures);
    MeasureBlocksContents(p.measures, a, h, length, width);
    MeasureBlocksContents(p.measures, b, h, length, width);
    forall k | 0 <= k < |ne| ensures SignatureAt(ne, a, k) == SignatureAt(ne, b, k) {
      SignatureAtIgnoresStart(ne, a, b, k);
    }
  }

  /** A part `prepare_data` gets through: it carries a comment whose program
      string is a number, and a time signature is in force by its first
      non-empty measure. */
  predicate Encodable(p: Part) {
    PartHeader(p).Success? && StartSignature(p).Success?
  }

  /** A score `prepare_data` gets through: it has a first part, and that
      part can be encoded. */
  predicate ScoreEncodable(sc: Score) {
    |sc.parts| > 0 && Encodable(sc.parts[0])
  }

  /** The inputs and targets one part contributes: its consecutive
      subsequences that follow one another; none for a part that cannot be
      encoded. */
  function PartPairs(p: Part, length: nat, width: nat): (r: Pairs<Block>)
    requires width >= TagWidth
    ensures PairedBlocks(r.inputs, r.targets, length, width)
    ensures !Encodable(p) ==> r == Pairs([], [])
  {
    if !Encodable(p) then Pairs([], [])
    else
      var subs := MeasureBlocks(p.measures, StartSignature(p).value, PartHeader(p).value, length, width);
      PairedPartBlocks(subs, length, width);
      PairsUpTo(subs, |subs|)
  }

  /** The contribution of one score: that of its first part, none for a
      score without parts. */
  function ScorePairs(sc: Score, length: nat, width: nat): (r: Pairs<Block>)
    requires width >= TagWidth
    ensures PairedBlocks(r.inputs, r.targets, length, width)
    ensures !ScoreEncodable(sc) ==> r == Pairs([], [])
  {
    if |sc.parts| == 0 then Pairs([], []) else PartPairs(sc.parts[0], length, width)
  }

  /** The contributions of the first `n` scores, score by score. */
  function ScoresPairs(scores: seq<Score>, length: nat, width: nat, n: nat): (ps: seq<Pairs<Block>>)
    requires width >= TagWidth
    requires n <= |scores|
    ensures |ps| == n
  {
    seq(n, i requires 0 <= i < n => ScorePairs(scores[i], length, width))
  }

  /** The loop over the first `n` loaded scores; the first score that cannot
      be encoded stops it. */
  function ScoresUpTo(scores: seq<Score>, length: nat, width: nat, n: nat): (r: Result<Pairs<Block>, StreamError>)
    requires width >= TagWidth
    requires n <= |scores|
    ensures r.Success? <==> forall i :: 0 <= i < n ==> ScoreEncodable(scores[i])
    ensures r.Success? ==> r.value == Join(ScoresPairs(scores, length, width, n))
    ensures r.Success? ==> PairedBlocks(r.value.inputs, r.value.targets, length, width)
  {
    if n == 0 then Success(Pairs([], []))
    else
      var done :- ScoresUpTo(scores, length, width, n - 1);
      var part :- FirstPart(scores[n - 1]);
      var h :- PartHeader(part);
      var init :- StartSignature(part);
      var subs := MeasureBlocks(part.measures, init, h, length, width);
      var more := PairsUpTo(subs, |subs|);
      ScoresStep(scores, length, width, n, done, more);
      Success(Pairs(done.inputs + more.inputs, done.targets + more.targets))
  }

  /** One more score's pairs appended to those of the scores before it. */
  lemma ScoresStep(scores: seq<Score>, length: nat, width: nat, n: nat, done: Pairs<Block>, more: Pairs<Block>)
    requires width >= TagWidth
    requires 0 < n <= |scores|
    requires done == Join(ScoresPairs(scores, length, width, n - 1))
    requires PairedBlocks(done.inputs, done.targets, length, width)
    requires more == ScorePairs(scores[n - 1], length, width)
    ensures var r := Pairs(done.inputs + more.inputs, done.targets + more.targets);
            && r == Join(ScoresPairs(scores, length, width, n))
            && PairedBlocks(r.inputs, r.targets, length, width)
  {
    assert ScoresPairs(scores, length, width, n) == ScoresPairs(scores, length, width, n - 1) + [more];
    JoinAppend(ScoresPairs(scores, length, width, n - 1), more);
    PairedAppend(done, more, length, width);
  }

  /** Once a score stops the loop, later scores change nothing. */
  lemma {:induction false} ScoresUpToStops(scores: seq<Score>, length: nat, width: nat, m: nat, n: nat)
    requires width >= TagWidth
    requires m <= n <= |scores|
    requires ScoresUpTo(scores, length, width, m).Failure?
    ensures ScoresUpTo(scores, length, width, n) == ScoresUpTo(scores, length, width, m)
    decreases n
  {
    if n > m {
      ScoresUpToStops(scores, length, width, m, n - 1);
    }
  }

  /** The first score that has no part, or whose first part's instrument has
      no comment, makes `prepare_data` raise the matching `IndexError`. */
  lemma UnreadableScoreReported(sh: StreamHandler, length: nat, width: nat, i: nat)
    requires width >= TagWidth
    requires i < |sh.sequences|
    requires forall j | 0 <= j < i :: ScoreEncodable(sh.sequences[j])
    requires |sh.sequences[i].parts| == 0 || sh.sequences[i].parts[0].comment.None?
    ensures PrepareData(sh, length, width) == Failure(if |sh.sequences[i].parts| == 0 then NoPart else NoComment)
  {
    assert ScoresUpTo(sh.sequences, length, width, i).Success?;
    ScoresUpToStops(sh.sequences, length, width, i + 1, |sh.sequences|);
  }

  /** `prepare_data`: both lists are reset; with a width below six nothing
      else happens, otherwise every part contributes its pairs in turn. */
  function PrepareData(sh: StreamHandler, length: nat, width: int): (r: Result<StreamHandler, StreamError>)
    ensures width < TagWidth ==> r == Success(StreamHandler(sh.sequences, [], []))
    ensures r.Success? <==> width < TagWidth || forall i :: 0 <= i < |sh.sequences| ==> ScoreEncodable(sh.sequences[i])
    ensures r.Success? ==> r.value.sequences == sh.sequences
    ensures r.Success? && width >= TagWidth ==>
              var all := Join(ScoresPairs(sh.sequences, length, width as nat, |sh.sequences|));
              r.value.input == all.inputs && r.value.target == all.targets
    ensures r.Success? && width >= TagWidth ==> PairedBlocks(r.value.input, r.value.target, length, width)
  {
    if width < TagWidth then Success(StreamHandler(sh.sequences, [], []))
    else
      var pairs :- ScoresUpTo(sh.sequences, length, width, |sh.sequences|);
      Success(StreamHandler(sh.sequences, pairs.inputs, pairs.targets))
  }

  /** `clear_data`: both lists emptied, the loaded scores kept. */
  function ClearData(sh: StreamHandler): (r: StreamHandler)
    ensures r.sequences == sh.sequences && r.input == [] && r.target == []
  {
    StreamHandler(sh.sequences, [], [])
  }

  /** `load_sequences`: the scores are replaced, the lists kept. */
  function LoadSequences(sh: StreamHandler, scores: seq<Score>): (r: StreamHandler)
    ensures r.sequences == scores && r.input == sh.input && r.target == sh.target
  {
    StreamHandler(scores, sh.input, sh.target)
  }

  /** Preparing twice gives the same lists: the previous ones are discarded
      first, so nothing accumulates across calls. */
  lemma PrepareDataResets(sh: StreamHandler, other: StreamHandler, length: nat, width: int)
    requires sh.sequences == other.sequences
    ensures PrepareData(sh, length, width) == PrepareData(other, length, width)
  {
  }
}
