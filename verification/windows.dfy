/** The training-set builder of prep_learn_data.py: every encoded sequence is
    vectorised, cut into overlapping windows of a fixed width, and the windows
    are split into inputs and targets so that each target is the window one
    step after its input. */
module Windows {
  import opened Results
  import opened Seqs
  import opened Vectors

  /** `div_tensor_list`: the windows `tensor_list[i:i+width]` for every `i`
      in `range(len(tensor_list) - width - 1)`; no window when the list is
      not longer than `width + 1`. */
  function DivTensorList<T>(ts: seq<T>, width: nat): (ws: seq<seq<T>>)
    ensures |ws| == if |ts| > width + 1 then |ts| - width - 1 else 0
    ensures forall i :: 0 <= i < |ws| ==> i + width + 2 <= |ts| && ws[i] == ts[i..i + width]
  {
    var count := if |ts| > width + 1 then |ts| - width - 1 else 0;
    seq(count, i requires 0 <= i < count => ts[i..i + width])
  }

  /** Every window is exactly `width` long, and neighbouring windows overlap
      in all but one element. */
  lemma WindowsOverlap<T>(ts: seq<T>, width: nat, i: nat)
    requires i + 1 < |DivTensorList(ts, width)|
    ensures |DivTensorList(ts, width)[i]| == width
    ensures width > 0 ==> DivTensorList(ts, width)[i][1..] == DivTensorList(ts, width)[i + 1][..width - 1]
  {
    var ws := DivTensorList(ts, width);
    if width > 0 {
      assert ws[i][1..] == ts[i + 1..i + width];
      assert ws[i + 1][..width - 1] == ts[i + 1..i + width];
    }
  }

  /** The windows never reach the last two elements: a window starts at most
      at `len - width - 2`, so it ends before index `len - 2`. */
  lemma LastTwoNeverWindowed<T>(ts: seq<T>, width: nat, i: nat)
    requires i < |DivTensorList(ts, width)|
    ensures i + width <= |ts| - 2
  {
  }

  /** How many of `n` remaining elements a stride of `step` visits. */
  function StrideCount(n: int, step: nat): nat
    requires step >= 1
    decreases n
  {
    if n <= 0 then 0 else 1 + StrideCount(n - step, step)
  }

  /** The index the `k`-th visit of a stride lands on. */
  function StrideIndex(start: nat, step: nat, k: nat): nat {
    if k == 0 then start else StrideIndex(start, step, k - 1) + step
  }

  lemma {:induction false} StrideIndexShift(start: nat, step: nat, k: nat)
    ensures StrideIndex(start + step, step, k) == StrideIndex(start, step, k + 1)
    ensures StrideIndex(start + 1, step, k) == StrideIndex(start, step, k) + 1
  {
    if k > 0 {
      StrideIndexShift(start, step, k - 1);
    }
  }

  /** The `k`-th visit lands on `start + k * step`. */
  lemma {:induction false} StrideIndexValue(start: nat, step: nat, k: nat)
    ensures StrideIndex(start, step, k) == start + k * step
  {
    if k > 0 {
      StrideIndexValue(start, step, k - 1);
      assert (k - 1) * step + step == k * step;
    }
  }

  /** A stride over `n > 0` elements makes the ceiling of `n / step` visits. */
  lemma {:induction false} StrideCountIsCeiling(n: int, step: nat)
    requires step >= 1
    ensures n <= 0 ==> StrideCount(n, step) == 0
    ensures n > 0 ==> (StrideCount(n, step) - 1) * step < n <= StrideCount(n, step) * step
    decreases n
  {
    if n > 0 {
      StrideCountIsCeiling(n - step, step);
      var c := StrideCount(n - step, step);
      assert StrideCount(n, step) == c + 1;
      assert (c + 1) * step == c * step + step;
    }
  }

  /** Python's `s[start::step]` for `step >= 1`: every `step`-th element from
      `start` on. */
  function Stride<T>(s: seq<T>, start: nat, step: nat): (r: seq<T>)
    requires step >= 1
    ensures |r| == StrideCount(|s| - start, step)
    ensures forall k :: 0 <= k < |r| ==> StrideIndex(start, step, k) < |s| && r[k] == s[StrideIndex(start, step, k)]
    decreases |s| - start
  {
    if start >= |s| then []
    else
      var rest := Stride(s, start + step, step);
      var r := [s[start]] + rest;
      forall k | 1 <= k < |r| ensures r[k] == rest[k - 1] && StrideIndex(start + step, step, k - 1) == StrideIndex(start, step, k) {
        StrideIndexShift(start, step, k - 1);
      }
      r
  }

  /** `div_list[:-1:partition]`: the stop `-1` means `len - 1`, clamped at 0. */
  function InputWindows<T>(ws: seq<T>, step: nat): seq<T>
    requires step >= 1
  {
    Stride(ws[..if |ws| > 0 then |ws| - 1 else 0], 0, step)
  }

  /** `div_list[1::partition]`. */
  function TargetWindows<T>(ws: seq<T>, step: nat): seq<T>
    requires step >= 1
  {
    Stride(ws, 1, step)
  }

  /** Inputs and targets pair up: there are as many of each, and the `k`-th
      target is the window right after the `k`-th input. */
  lemma InputsAndTargetsPair<T>(ws: seq<T>, step: nat)
    requires step >= 1
    ensures |InputWindows(ws, step)| == |TargetWindows(ws, step)|
    ensures forall k :: 0 <= k < |InputWindows(ws, step)| ==>
              && StrideIndex(0, step, k) + 1 < |ws|
              && InputWindows(ws, step)[k] == ws[StrideIndex(0, step, k)]
              && TargetWindows(ws, step)[k] == ws[StrideIndex(0, step, k) + 1]
  {
    forall k | 0 <= k < |InputWindows(ws, step)| ensures StrideIndex(1, step, k) == StrideIndex(0, step, k) + 1 {
      StrideIndexShift(0, step, k);
    }
  }

  /** What aborts `prepare_tensors`: a symbol without coordinates (`KeyError`)
      or a zero `partition` (`ValueError`, a slice step cannot be zero). */
  datatype TensorError = NoCoords(cause: VectorError) | ZeroStep

  /** The batch lists `batch_tensor_input` and `batch_tensor_target`. */
  type Batch = Pairs<seq<Triple>>

  /** `b` is `a` moved one step on: it drops `a`'s first element and takes one
      new one at the end. */
  predicate Shifted(a: seq<Triple>, b: seq<Triple>) {
    |a| == |b| && forall i :: 0 <= i < |a| - 1 ==> b[i] == a[i + 1]
  }

  /** Inputs and targets come in pairs of windows of the same width, the
      target always one step ahead of its input. */
  predicate Paired(b: Batch, width: nat) {
    && |b.inputs| == |b.targets|
    && forall k :: 0 <= k < |b.inputs| ==>
         |b.inputs[k]| == width && Shifted(b.inputs[k], b.targets[k])
  }

  /** Window `i + 1` is window `i` moved one vector on. */
  lemma WindowShifted(ts: seq<Triple>, width: nat, i: nat)
    requires i + 1 < |DivTensorList(ts, width)|
    ensures |DivTensorList(ts, width)[i]| == width
    ensures Shifted(DivTensorList(ts, width)[i], DivTensorList(ts, width)[i + 1])
  {
    var ws := DivTensorList(ts, width);
    assert ws[i] == ts[i..i + width];
    assert ws[i + 1] == ts[i + 1..i + 1 + width];
  }

  lemma WindowsPaired(ts: seq<Triple>, width: nat, step: nat)
    requires step >= 1
    ensures Paired(Pairs(InputWindows(DivTensorList(ts, width), step), TargetWindows(DivTensorList(ts, width), step)), width)
  {
    var ws := DivTensorList(ts, width);
    InputsAndTargetsPair(ws, step);
    forall k | 0 <= k < |InputWindows(ws, step)|
      ensures |InputWindows(ws, step)[k]| == width && Shifted(InputWindows(ws, step)[k], TargetWindows(ws, step)[k])
    {
      WindowShifted(ts, width, StrideIndex(0, step, k));
    }
  }

  /** The input and target windows of one vectorised sequence: every
      `step`-th window from the first on, each paired with the window one
      vector further on. */
  function WindowPairs(ts: seq<Triple>, width: nat, step: nat): (b: Batch)
    requires step >= 1
    ensures Paired(b, width)
    ensures |b.inputs| == StrideCount(|DivTensorList(ts, width)| - 1, step)
    ensures forall k :: 0 <= k < |b.inputs| ==>
              && StrideIndex(0, step, k) + 1 < |DivTensorList(ts, width)|
              && b.inputs[k] == DivTensorList(ts, width)[StrideIndex(0, step, k)]
              && b.targets[k] == DivTensorList(ts, width)[StrideIndex(0, step, k) + 1]
  {
    var ws := DivTensorList(ts, width);
    InputsAndTargetsPair(ws, step);
    WindowsPaired(ts, width, step);
    Pairs(InputWindows(ws, step), TargetWindows(ws, step))
  }

  /** One iteration of the outer loop of `prepare_tensors`. */
  function PrepareSequence(symbols: seq<string>, offsets: seq<real>, coords: map<string, Coord>,
                           width: nat, step: nat): (r: Result<Batch, TensorError>)
    ensures r.Success? <==> DeltaEncode(symbols, offsets, coords).Success? && step >= 1
    ensures r.Success? ==> r.value == WindowPairs(DeltaEncode(symbols, offsets, coords).value, width, step)
    ensures r.Success? ==> Paired(r.value, width)
  {
    match DeltaEncode(symbols, offsets, coords)
    case Failure(e) => Failure(NoCoords(e))
    case Success(ts) =>
      if step == 0 then Failure(ZeroStep) else Success(WindowPairs(ts, width, step))
  }

  lemma PairedAppend(a: Batch, b: Batch, width: nat)
    requires Paired(a, width) && Paired(b, width)
    ensures Paired(Pairs(a.inputs + b.inputs, a.targets + b.targets), width)
  {
    var c := Pairs(a.inputs + b.inputs, a.targets + b.targets);
    forall k | |a.inputs| <= k < |c.inputs| ensures |c.inputs[k]| == width && Shifted(c.inputs[k], c.targets[k]) {
      var j := k - |a.inputs|;
      assert c.inputs[k] == b.inputs[j];
      assert c.targets[k] == b.targets[j];
    }
  }

  /** The windows one sequence contributes; none when it does not vectorise. */
  function WindowsOf(symbols: seq<string>, offsets: seq<real>, coords: map<string, Coord>,
                     width: nat, step: nat): Batch
    requires step >= 1
  {
    match DeltaEncode(symbols, offsets, coords)
    case Success(ts) => WindowPairs(ts, width, step)
    case Failure(_) => Pairs([], [])
  }

  /** The windows of the first `n` sequences, sequence by sequence. */
  function SequenceWindows(sequences: seq<seq<string>>, offsets: seq<seq<real>>, coords: map<string, Coord>,
                           width: nat, step: nat, n: nat): (bs: seq<Batch>)
    requires n <= Min(|sequences|, |offsets|)
    requires step >= 1
    ensures |bs| == n
  {
    seq(n, q requires 0 <= q < n => WindowsOf(sequences[q], offsets[q], coords, width, step))
  }

  lemma SequenceWindowsStep(sequences: seq<seq<string>>, offsets: seq<seq<real>>, coords: map<string, Coord>,
                            width: nat, step: nat, n: nat)
    requires 0 < n <= Min(|sequences|, |offsets|)
    requires step >= 1
    ensures var before := Join(SequenceWindows(sequences, offsets, coords, width, step, n - 1));
            var last := WindowsOf(sequences[n - 1], offsets[n - 1], coords, width, step);
            Join(SequenceWindows(sequences, offsets, coords, width, step, n))
              == Pairs(before.inputs + last.inputs, before.targets + last.targets)
  {
    var last := WindowsOf(sequences[n - 1], offsets[n - 1], coords, width, step);
    assert SequenceWindows(sequences, offsets, coords, width, step, n)
        == SequenceWindows(sequences, offsets, coords, width, step, n - 1) + [last];
    JoinAppend(SequenceWindows(sequences, offsets, coords, width, step, n - 1), last);
  }

  /** The joined windows of any number of sequences are shifted windows of
      width `width`, pair by pair. */
  lemma {:induction false} SequenceWindowsPaired(sequences: seq<seq<string>>, offsets: seq<seq<real>>, coords: map<string, Coord>,
                                                 width: nat, step: nat, n: nat)
    requires n <= Min(|sequences|, |offsets|)
    requires step >= 1
    ensures Paired(Join(SequenceWindows(sequences, offsets, coords, width, step, n)), width)
  {
    if n > 0 {
      SequenceWindowsPaired(sequences, offsets, coords, width, step, n - 1);
      SequenceWindowsStep(sequences, offsets, coords, width, step, n);
      PairedAppend(Join(SequenceWindows(sequences, offsets, coords, width, step, n - 1)),
                   WindowsOf(sequences[n - 1], offsets[n - 1], coords, width, step), width);
    }
  }

  /** The first `n` iterations of the outer loop, over
      `zip(sequence_data, offset_data)`. */
  function PrepareUpTo(sequences: seq<seq<string>>, offsets: seq<seq<real>>, coords: map<string, Coord>,
                       width: nat, step: nat, n: nat): (r: Result<Batch, TensorError>)
    requires n <= Min(|sequences|, |offsets|)
    ensures r.Success? <==>
              && (n == 0 || step >= 1)
              && forall q | 0 <= q < n :: DeltaEncode(sequences[q], offsets[q], coords).Success?
    ensures r.Success? && step >= 1 ==> r.value == Join(SequenceWindows(sequences, offsets, coords, width, step, n))
    ensures n == 0 ==> r == Success(Pairs([], []))
  {
    if n == 0 then Success(Pairs([], []))
    else
      var before :- PrepareUpTo(sequences, offsets, coords, width, step, n - 1);
      var next :- PrepareSequence(sequences[n - 1], offsets[n - 1], coords, width, step);
      SequenceWindowsStep(sequences, offsets, coords, width, step, n);
      Success(Pairs(before.inputs + next.inputs, before.targets + next.targets))
  }

  /** `prepare_tensors(length_of_vector, partition)` up to the stacking: the
      training inputs and the targets the network should predict for them. */
  function PrepareTensors(sequences: seq<seq<string>>, offsets: seq<seq<real>>, coords: map<string, Coord>,
                          width: nat, step: nat): (r: Result<Batch, TensorError>)
    ensures r.Success? <==>
              && (Min(|sequences|, |offsets|) == 0 || step >= 1)
              && forall q | 0 <= q < Min(|sequences|, |offsets|) :: DeltaEncode(sequences[q], offsets[q], coords).Success?
    ensures r.Success? && step >= 1 ==>
              r.value == Join(SequenceWindows(sequences, offsets, coords, width, step, Min(|sequences|, |offsets|)))
    ensures Min(|sequences|, |offsets|) == 0 ==> r == Success(Pairs([], []))
    ensures r.Success? ==> Paired(r.value, width)
  {
    var n := Min(|sequences|, |offsets|);
    var r := PrepareUpTo(sequences, offsets, coords, width, step, n);
    if r.Success? && step >= 1 then
      SequenceWindowsPaired(sequences, offsets, coords, width, step, n);
      r
    else r
  }
}
