/** Rounding to the nearest integer as numpy's `np.round` and Python's `round`
    do it (ties go to the even neighbour), and the sixteenth-note grid the
    decoder snaps offsets to. */
module Rounding {

  /** `np.round(x)`: the nearest integer, ties to even. */
  function RoundHalfEven(x: real): (r: int)
    ensures r as real - 0.5 <= x <= r as real + 0.5
    ensures (x == r as real - 0.5 || x == r as real + 0.5) ==> r % 2 == 0
  {
    var f := x.Floor;
    var frac := x - f as real;
    if frac < 0.5 then f
    else if frac > 0.5 then f + 1
    else if f % 2 == 0 then f
    else f + 1
  }

  /** The two properties above determine the rounded value completely. */
  lemma RoundHalfEvenUnique(x: real, r: int)
    requires r as real - 0.5 <= x <= r as real + 0.5
    requires (x == r as real - 0.5 || x == r as real + 0.5) ==> r % 2 == 0
    ensures RoundHalfEven(x) == r
  {
  }

  /** Quarter-length values on the sixteenth-note grid (multiples of 1/4). */
  ghost predicate OnGrid(x: real) {
    (4.0 * x).Floor as real == 4.0 * x
  }

  /** `np.round(delta * 4.0) / 4.0`: the nearest multiple of 1/4. */
  function Quantise(delta: real): (q: real)
    ensures OnGrid(q)
    ensures -0.125 <= q - delta <= 0.125
  {
    RoundHalfEven(delta * 4.0) as real / 4.0
  }

  /** Snapping leaves a value that is already on the grid unchanged. */
  lemma QuantiseOnGrid(delta: real)
    requires OnGrid(delta)
    ensures Quantise(delta) == delta
  {
    var n := (4.0 * delta).Floor;
    RoundHalfEvenUnique(delta * 4.0, n);
  }

  /** The grid is closed under sums and differences. */
  lemma OnGridArithmetic(a: real, b: real)
    requires OnGrid(a) && OnGrid(b)
    ensures OnGrid(a + b) && OnGrid(a - b)
  {
    var m := (4.0 * a).Floor;
    var n := (4.0 * b).Floor;
    assert 4.0 * (a + b) == 4.0 * a + 4.0 * b == m as real + n as real;
    assert 4.0 * (a - b) == 4.0 * a - 4.0 * b == m as real - n as real;
    assert (m as real + n as real).Floor == m + n;
    assert (m as real - n as real).Floor == m - n;
  }
}
