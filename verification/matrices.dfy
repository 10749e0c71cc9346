/** Exact dense linear algebra over `real`: the arithmetic the premultiplication
    rewrite relies on, without floating-point rounding. */
module Matrices {

  type Vector = seq<real>

  /** Row-major: `m[r][c]` is the entry in row `r`, column `c`. */
  type Matrix = seq<Vector>

  predicate IsMatrix(m: Matrix, rows: int, cols: int) {
    |m| == rows && forall r :: 0 <= r < |m| ==> |m[r]| == cols
  }

  /** A freshly sized matrix. */
  function Zero(rows: nat, cols: nat): (m: Matrix)
    ensures IsMatrix(m, rows, cols)
  {
    seq(rows, _ => seq(cols, _ => 0.0))
  }

  function Dot(a: Vector, b: Vector): real
    requires |a| == |b|
    decreases |a|
  {
    if |a| == 0 then 0.0 else a[0] * b[0] + Dot(a[1..], b[1..])
  }

  /** The dot product splits over concatenated operands of matching lengths. */
  lemma {:induction false} DotAppend(a1: Vector, a2: Vector, b1: Vector, b2: Vector)
    requires |a1| == |b1| && |a2| == |b2|
    ensures Dot(a1 + a2, b1 + b2) == Dot(a1, b1) + Dot(a2, b2)
    decreases |a1|
  {
    if |a1| > 0 {
      assert (a1 + a2)[1..] == a1[1..] + a2;
      assert (b1 + b2)[1..] == b1[1..] + b2;
      DotAppend(a1[1..], a2, b1[1..], b2);
    } else {
      assert a1 + a2 == a2 && b1 + b2 == b2;
    }
  }

  /** Matrix times column vector. */
  function MatVec(m: Matrix, x: Vector): (y: Vector)
    requires forall r :: 0 <= r < |m| ==> |m[r]| == |x|
    ensures |y| == |m|
  {
    seq(|m|, r requires 0 <= r < |m| => Dot(m[r], x))
  }

  /** The `i`-th run of `k` consecutive entries: `middleCols(i*k, k)` of one row. */
  function Chunk(s: Vector, i: nat, k: nat): Vector
    requires (i + 1) * k <= |s|
  {
    s[i * k..(i + 1) * k]
  }

  /** Chunk `i` of `s` is chunk `i - 1` of what follows the first chunk. */
  lemma ChunkAfterFirst(s: Vector, i: nat, k: nat)
    requires i >= 1 && (i + 1) * k <= |s|
    ensures k <= |s| && i * k <= |s| - k
    ensures Chunk(s, i, k) == Chunk(s[k..], i - 1, k)
  {
    assert i * k == k + (i - 1) * k;
    assert (i + 1) * k == k + i * k;
  }

  /** One row of `seg * w.transpose()`: the dot product of `seg` with every row of `w`. */
  function TimesTranspose(seg: Vector, w: Matrix): (r: Vector)
    requires forall v :: 0 <= v < |w| ==> |w[v]| == |seg|
    ensures |r| == |w|
  {
    seq(|w|, v requires 0 <= v < |w| => Dot(seg, w[v]))
  }
}
