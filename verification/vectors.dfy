/** The vectorisation step shared by prep_learn_data.py and
    prepare_inputs.py: each symbol of an encoded sequence becomes the triple
    (x, y, offset step), where (x, y) are the symbol's embedding coordinates
    and the step is the distance from the previous element's offset. */
module Vectors {
  import opened Results

  /** A point of the two-dimensional embedding plane. */
  datatype Coord = Coord(x: real, y: real)

  /** One row of network input or output: an embedding point and the offset
      step from the previous element, in quarter lengths. */
  datatype Triple = Triple(x: real, y: real, delta: real)

  /** The `KeyError` raised when a symbol has no coordinates in the
      dictionary. */
  datatype VectorError = MissingCoords(key: string)

  function Min(a: int, b: int): int {
    if a <= b then a else b
  }

  /** The offset the step of position `i` is measured from: the previous
      offset, or 0 at the start. */
  function Previous(offsets: seq<real>, i: nat): real
    requires i < |offsets|
  {
    if i == 0 then 0.0 else offsets[i - 1]
  }

  /** Position `i` lies within the pairs `zip(sequence, offset)` yields and
      its symbol has no coordinates. */
  predicate Missing(symbols: seq<string>, offsets: seq<real>, coords: map<string, Coord>, i: nat) {
    i < Min(|symbols|, |offsets|) && symbols[i] !in coords
  }

  /** The triple of position `i`: the symbol's coordinates and the step
      from the previous offset. */
  function TripleAt(symbols: seq<string>, offsets: seq<real>, coords: map<string, Coord>, i: nat): Triple
    requires i < |symbols| && i < |offsets| && symbols[i] in coords
  {
    var c := coords[symbols[i]];
    Triple(c.x, c.y, offsets[i] - Previous(offsets, i))
  }

  /** The first `n` iterations of the inner loop of `prepare_tensors`; the
      running `curr_offset` is always the previous element's offset. */
  function EncodePrefix(symbols: seq<string>, offsets: seq<real>, coords: map<string, Coord>, n: nat)
    : (r: Result<seq<Triple>, VectorError>)
    requires n <= Min(|symbols|, |offsets|)
    ensures r.Success? <==> forall i | 0 <= i < n :: !Missing(symbols, offsets, coords, i)
    ensures r.Success? ==> |r.value| == n
    ensures r.Success? ==> forall i | 0 <= i < n ::
              symbols[i] in coords && r.value[i] == TripleAt(symbols, offsets, coords, i)
    ensures r.Failure? ==> exists i | 0 <= i < n ::
              (&& Missing(symbols, offsets, coords, i)
               && r.error == MissingCoords(symbols[i])
               && forall j | 0 <= j < i :: !Missing(symbols, offsets, coords, j))
  {
    if n == 0 then Success([])
    else
      var prefix :- EncodePrefix(symbols, offsets, coords, n - 1);
      if symbols[n - 1] !in coords then
        assert Missing(symbols, offsets, coords, n - 1);
        Failure(MissingCoords(symbols[n - 1]))
      else
        assert !Missing(symbols, offsets, coords, n - 1);
        Success(prefix + [TripleAt(symbols, offsets, coords, n - 1)])
  }

  /** The vectors of one encoded sequence: pairs beyond the shorter of the
      two lists are dropped, as `zip` does; a symbol without coordinates
      aborts with the first such symbol. */
  function DeltaEncode(symbols: seq<string>, offsets: seq<real>, coords: map<string, Coord>)
    : (r: Result<seq<Triple>, VectorError>)
    ensures r.Success? <==> forall i: nat :: !Missing(symbols, offsets, coords, i)
    ensures r.Success? ==> |r.value| == Min(|symbols|, |offsets|)
    ensures r.Success? ==> forall i | 0 <= i < |r.value| ::
              && symbols[i] in coords
              && r.value[i].x == coords[symbols[i]].x
              && r.value[i].y == coords[symbols[i]].y
              && r.value[i].delta == offsets[i] - Previous(offsets, i)
  {
    EncodePrefix(symbols, offsets, coords, Min(|symbols|, |offsets|))
  }

  /** The sum of the first `n` offset steps. */
  function DeltaSum(ts: seq<Triple>, n: nat): real
    requires n <= |ts|
  {
    if n == 0 then 0.0 else DeltaSum(ts, n - 1) + ts[n - 1].delta
  }

  /** The steps telescope: summing the first `n` of them gives back the
      offset of element `n - 1`, so the offsets are recoverable. */
  lemma {:induction false} DeltaSumRecoversOffsets(symbols: seq<string>, offsets: seq<real>, coords: map<string, Coord>, n: nat)
    requires DeltaEncode(symbols, offsets, coords).Success?
    requires 0 < n <= |DeltaEncode(symbols, offsets, coords).value|
    ensures DeltaSum(DeltaEncode(symbols, offsets, coords).value, n) == offsets[n - 1]
  {
    var ts := DeltaEncode(symbols, offsets, coords).value;
    if n > 1 {
      DeltaSumRecoversOffsets(symbols, offsets, coords, n - 1);
    }
    assert ts[n - 1].delta == offsets[n - 1] - Previous(offsets, n - 1);
  }
}
