/** The input builder of prepare_inputs.py: every encoded sequence is
    vectorised and cut into consecutive, non-overlapping chunks of 128
    vectors; a final partial chunk is replaced by the last 128 vectors of the
    sequence, so it overlaps the chunk before it. */
module Chunks {
  import opened Results
  import opened Seqs
  import opened Vectors

  /** The chunk width hard-wired in `prepare_tensors`. */
  const ChunkWidth: nat := 128

  /** `ceil(n / d)`. */
  function CeilDiv(n: nat, d: nat): (c: nat)
    requires d > 0
    ensures c * d >= n && (c == 0 || (c - 1) * d < n)
  {
    (n + d - 1) / d
  }

  /** A slice bound as Python reads it: a negative bound counts from the end,
      and the result is clamped to `0..n`. */
  function SliceBound(i: int, n: nat): (b: nat)
    ensures b <= n
    ensures 0 <= i <= n ==> b == i
    ensures -(n as int) <= i < 0 ==> b == i + n
    ensures i < -(n as int) ==> b == 0
    ensures i > n ==> b == n
  {
    if i < 0 then (if i + n < 0 then 0 else i + n)
    else if i > n then n
    else i
  }

  /** Python's `s[start:stop]`. */
  function PySlice<T>(s: seq<T>, start: int, stop: int): (r: seq<T>)
    ensures |r| == if SliceBound(start, |s|) < SliceBound(stop, |s|) then SliceBound(stop, |s|) - SliceBound(start, |s|) else 0
    ensures forall k :: 0 <= k < |r| ==> r[k] == s[SliceBound(start, |s|) + k]
  {
    var a, b := SliceBound(start, |s|), SliceBound(stop, |s|);
    if a < b then s[a..b] else []
  }

  /** Chunk `t` of a sequence: the `t`-th block of 128 when it fits, and
      `s[len - 128 : len]` otherwise. */
  function Chunk<T>(s: seq<T>, t: nat): seq<T> {
    if (t + 1) * ChunkWidth > |s| then PySlice(s, |s| - ChunkWidth, |s|)
    else s[t * ChunkWidth..(t + 1) * ChunkWidth]
  }

  /** The `trim` loop of `prepare_tensors` for one sequence. */
  function ChunkSequence<T>(s: seq<T>): (cs: seq<seq<T>>)
    ensures |cs| == CeilDiv(|s|, ChunkWidth)
    ensures forall t :: 0 <= t < |cs| ==> cs[t] == Chunk(s, t)
  {
    seq(CeilDiv(|s|, ChunkWidth), t requires 0 <= t < CeilDiv(|s|, ChunkWidth) => Chunk(s, t))
  }

  /** Every chunk but the last is the next block of 128 elements. */
  lemma ChunksBeforeLast<T>(s: seq<T>, t: nat)
    requires t + 1 < |ChunkSequence(s)|
    ensures (t + 1) * ChunkWidth <= |s|
    ensures ChunkSequence(s)[t] == s[t * ChunkWidth..(t + 1) * ChunkWidth]
  {
  }

  /** A sequence of at least 128 elements ends with a chunk holding exactly
      its last 128 elements, whether or not 128 divides its length. */
  lemma LastChunkBackAligned<T>(s: seq<T>)
    requires |s| >= ChunkWidth
    ensures |ChunkSequence(s)| > 0
    ensures ChunkSequence(s)[|ChunkSequence(s)| - 1] == s[|s| - ChunkWidth..]
  {
    var c := |ChunkSequence(s)|;
    var t := c - 1;
    if (t + 1) * ChunkWidth <= |s| {
      assert (t + 1) * ChunkWidth == |s|;
    }
  }

  /** With at least 128 elements every chunk is exactly 128 wide, so the
      chunks stack into one tensor. */
  lemma LongSequenceFullChunks<T>(s: seq<T>, t: nat)
    requires |s| >= ChunkWidth
    requires t < |ChunkSequence(s)|
    ensures |ChunkSequence(s)[t]| == ChunkWidth
  {
  }

  /** Every element of a sequence of at least 128 elements lands in some
      chunk: element `i` is in chunk `i / 128`, or in the back-aligned last
      chunk. */
  lemma LongSequenceCovered<T>(s: seq<T>, i: nat)
    requires |s| >= ChunkWidth && i < |s|
    ensures exists t, j | 0 <= t < |ChunkSequence(s)| && 0 <= j < |ChunkSequence(s)[t]| :: ChunkSequence(s)[t][j] == s[i]
  {
    var cs := ChunkSequence(s);
    var t := i / ChunkWidth;
    if (t + 1) * ChunkWidth <= |s| {
      assert cs[t][i - t * ChunkWidth] == s[i];
    } else {
      LastChunkBackAligned(s);
      var last := |cs| - 1;
      assert cs[last][i - (|s| - ChunkWidth)] == s[i];
    }
  }

  /** When 128 divides the length the chunks partition the sequence exactly. */
  lemma {:induction false} ExactChunksPartition<T>(s: seq<T>, n: nat)
    requires |s| % ChunkWidth == 0
    requires n <= |ChunkSequence(s)|
    ensures Concat(ChunkSequence(s)[..n]) == s[..n * ChunkWidth]
  {
    if n > 0 {
      var cs := ChunkSequence(s);
      var lo, hi := (n - 1) * ChunkWidth, n * ChunkWidth;
      assert hi <= |s|;
      ExactChunksPartition(s, n - 1);
      assert cs[..n] == cs[..n - 1] + [cs[n - 1]];
      assert cs[n - 1] == s[lo..hi];
      ConcatAppend(cs[..n - 1], cs[n - 1]);
      assert s[..hi] == s[..lo] + s[lo..hi];
    }
  }

  /** When 128 divides the length, gluing the chunks back together gives the
      sequence: nothing is lost or repeated. */
  lemma ExactChunksFlatten<T>(s: seq<T>)
    requires |s| % ChunkWidth == 0
    ensures Concat(ChunkSequence(s)) == s
  {
    var cs := ChunkSequence(s);
    ExactChunksPartition(s, |cs|);
    assert cs[..|cs|] == cs;
    assert |cs| * ChunkWidth == |s|;
  }

  /** A sequence shorter than 128 gives one chunk, `s[2 * len - 128 : len]`
      by Python's negative-start rule: the whole sequence only when it is at
      most 64 long, and only its last `128 - len` elements otherwise. */
  lemma ShortSequenceChunk<T>(s: seq<T>)
    requires 0 < |s| < ChunkWidth
    ensures |ChunkSequence(s)| == 1
    ensures |s| <= 64 ==> ChunkSequence(s)[0] == s
    ensures |s| > 64 ==> ChunkSequence(s)[0] == s[2 * |s| - ChunkWidth..]
  {
    var c := ChunkSequence(s)[0];
    if |s| <= 64 {
      assert c == s[0..|s|];
    } else {
      assert c == s[2 * |s| - ChunkWidth..|s|];
    }
  }

  /** The empty sequence gives no chunk at all. */
  lemma EmptySequenceNoChunk<T>(s: seq<T>)
    requires |s| == 0
    ensures ChunkSequence(s) == []
  {
  }

  /** How many chunks the first `n` sequences give: `ceil(len / 128)` each,
      where `len` is the length of `zip(sequence, offset)`. */
  function ChunkTotal(sequences: seq<seq<string>>, offsets: seq<seq<real>>, n: nat): nat
    requires n <= Min(|sequences|, |offsets|)
  {
    if n == 0 then 0
    else ChunkTotal(sequences, offsets, n - 1) + CeilDiv(Min(|sequences[n - 1]|, |offsets[n - 1]|), ChunkWidth)
  }

  /** The chunk list of one sequence; none when it does not vectorise. */
  function ChunksOf(symbols: seq<string>, offsets: seq<real>, coords: map<string, Coord>): seq<seq<Triple>> {
    match DeltaEncode(symbols, offsets, coords)
    case Success(ts) => ChunkSequence(ts)
    case Failure(_) => []
  }

  /** The chunk lists of the first `n` sequences, sequence by sequence. */
  function SequenceChunks(sequences: seq<seq<string>>, offsets: seq<seq<real>>, coords: map<string, Coord>, n: nat)
    : (css: seq<seq<seq<Triple>>>)
    requires n <= Min(|sequences|, |offsets|)
    ensures |css| == n
  {
    seq(n, q requires 0 <= q < n => ChunksOf(sequences[q], offsets[q], coords))
  }

  lemma SequenceChunksStep(sequences: seq<seq<string>>, offsets: seq<seq<real>>, coords: map<string, Coord>, n: nat)
    requires 0 < n <= Min(|sequences|, |offsets|)
    ensures Concat(SequenceChunks(sequences, offsets, coords, n))
         == Concat(SequenceChunks(sequences, offsets, coords, n - 1)) + ChunksOf(sequences[n - 1], offsets[n - 1], coords)
  {
    var last := ChunksOf(sequences[n - 1], offsets[n - 1], coords);
    assert SequenceChunks(sequences, offsets, coords, n) == SequenceChunks(sequences, offsets, coords, n - 1) + [last];
    ConcatAppend(SequenceChunks(sequences, offsets, coords, n - 1), last);
  }

  /** When every sequence vectorises, the chunks number `ceil(len / 128)` per
      sequence, summed over the sequences. */
  lemma {:induction false} SequenceChunksCount(sequences: seq<seq<string>>, offsets: seq<seq<real>>, coords: map<string, Coord>, n: nat)
    requires n <= Min(|sequences|, |offsets|)
    requires forall q | 0 <= q < n :: DeltaEncode(sequences[q], offsets[q], coords).Success?
    ensures |Concat(SequenceChunks(sequences, offsets, coords, n))| == ChunkTotal(sequences, offsets, n)
  {
    if n > 0 {
      SequenceChunksCount(sequences, offsets, coords, n - 1);
      SequenceChunksStep(sequences, offsets, coords, n);
    }
  }

  /** Every chunk in the glued list is a chunk of one of the sequences. */
  lemma {:induction false} SequenceChunksMembers(sequences: seq<seq<string>>, offsets: seq<seq<real>>, coords: map<string, Coord>, n: nat)
    requires n <= Min(|sequences|, |offsets|)
    ensures var all := Concat(SequenceChunks(sequences, offsets, coords, n));
            forall k | 0 <= k < |all| :: exists q | 0 <= q < n :: all[k] in ChunksOf(sequences[q], offsets[q], coords)
  {
    if n > 0 {
      var before := Concat(SequenceChunks(sequences, offsets, coords, n - 1));
      var last := ChunksOf(sequences[n - 1], offsets[n - 1], coords);
      SequenceChunksMembers(sequences, offsets, coords, n - 1);
      SequenceChunksStep(sequences, offsets, coords, n);
      var all := before + last;
      forall k | 0 <= k < |all| ensures exists q | 0 <= q < n :: all[k] in ChunksOf(sequences[q], offsets[q], coords) {
        if k >= |before| {
          assert all[k] == last[k - |before|];
        } else {
          assert all[k] == before[k];
        }
      }
    }
  }

  /** `prepare_tensors` of prepare_inputs.py up to the stacking: the chunks of
      the first `n` sequences of `zip(sequence_data, offset_data)`, sequence
      by sequence. */
  function ChunksUpTo(sequences: seq<seq<string>>, offsets: seq<seq<real>>, coords: map<string, Coord>, n: nat)
    : (r: Result<seq<seq<Triple>>, VectorError>)
    requires n <= Min(|sequences|, |offsets|)
    ensures r.Success? <==> forall q | 0 <= q < n :: DeltaEncode(sequences[q], offsets[q], coords).Success?
    ensures r.Success? ==> r.value == Concat(SequenceChunks(sequences, offsets, coords, n))
  {
    if n == 0 then Success([])
    else
      var before :- ChunksUpTo(sequences, offsets, coords, n - 1);
      var ts :- DeltaEncode(sequences[n - 1], offsets[n - 1], coords);
      SequenceChunksStep(sequences, offsets, coords, n);
      Success(before + ChunkSequence(ts))
  }

  function PrepareInputs(sequences: seq<seq<string>>, offsets: seq<seq<real>>, coords: map<string, Coord>)
    : (r: Result<seq<seq<Triple>>, VectorError>)
    ensures r.Success? <==> forall q | 0 <= q < Min(|sequences|, |offsets|) :: DeltaEncode(sequences[q], offsets[q], coords).Success?
    ensures r.Success? ==> r.value == Concat(SequenceChunks(sequences, offsets, coords, Min(|sequences|, |offsets|)))
    ensures r.Success? ==> |r.value| == ChunkTotal(sequences, offsets, Min(|sequences|, |offsets|))
    ensures r.Success? ==> forall k | 0 <= k < |r.value| :: exists q | 0 <= q < Min(|sequences|, |offsets|) ::
              r.value[k] in ChunkSequence(DeltaEncode(sequences[q], offsets[q], coords).value)
  {
    var n := Min(|sequences|, |offsets|);
    var r := ChunksUpTo(sequences, offsets, coords, n);
    if r.Success? then
      SequenceChunksCount(sequences, offsets, coords, n);
      SequenceChunksMembers(sequences, offsets, coords, n);
      r
    else r
  }
}
