/**
 * Five-slot taste vectors over the fixed axes sweet, sour, bitter, fruity
 * and spicy (süß, sauer, bitter, fruchtig, würzig), in that order.
 */
module Taste {

  type TasteVector = v: seq<real> | |v| == 5 witness [0.0, 0.0, 0.0, 0.0, 0.0]

  const Sweet: nat := 0
  const Sour: nat := 1
  const Bitter: nat := 2
  const Fruity: nat := 3
  const Spicy: nat := 4

  const Zero: TasteVector := [0.0, 0.0, 0.0, 0.0, 0.0]

  /** Component-wise sum (numpy's `+=` on two 5-vectors). */
  function Add(a: TasteVector, b: TasteVector): (r: TasteVector)
    ensures forall c :: 0 <= c < 5 ==> r[c] == a[c] + b[c]
  {
    seq(5, c requires 0 <= c < 5 => a[c] + b[c])
  }

  /** Every component multiplied by `x`. */
  function Times(a: TasteVector, x: real): (r: TasteVector)
    ensures forall c :: 0 <= c < 5 ==> r[c] == a[c] * x
  {
    seq(5, c requires 0 <= c < 5 => a[c] * x)
  }

  function Square(x: real): real { x * x }

  /** Squared Euclidean distance between two taste vectors. */
  function SquaredDistance(a: TasteVector, b: TasteVector): real
  {
    Square(a[0] - b[0]) + Square(a[1] - b[1]) + Square(a[2] - b[2])
      + Square(a[3] - b[3]) + Square(a[4] - b[4])
  }

  /** All five components lie in [lo, hi]. */
  predicate Within(a: TasteVector, lo: real, hi: real)
  {
    forall c :: 0 <= c < 5 ==> lo <= a[c] <= hi
  }
}
