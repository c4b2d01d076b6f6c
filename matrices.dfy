/** Two-dimensional numpy arrays as sequences of rows. */
module Matrices {

  /** `m` has `rows` rows of `cols` entries each. */
  predicate IsMatrix<T>(m: seq<seq<T>>, rows: nat, cols: nat)
  {
    |m| == rows && forall e :: 0 <= e < rows ==> |m[e]| == cols
  }

  /** `np.zeros([rows, cols])`. */
  function Zeros(rows: nat, cols: nat): (m: seq<seq<real>>)
    ensures IsMatrix(m, rows, cols)
  {
    seq(rows, _ => seq(cols, _ => 0.0))
  }

  /** `m.T` for an `|m|` x `cols` matrix (the column count is needed when `m` has no rows). */
  function Transpose<T>(m: seq<seq<T>>, cols: nat): (t: seq<seq<T>>)
    requires IsMatrix(m, |m|, cols)
    ensures IsMatrix(t, cols, |m|)
  {
    seq(cols, d requires 0 <= d < cols => seq(|m|, e requires 0 <= e < |m| => m[e][d]))
  }

  /** Transposing twice gives the matrix back: the stored layout loses nothing. */
  lemma TransposeTwice<T>(m: seq<seq<T>>, cols: nat)
    requires IsMatrix(m, |m|, cols)
    ensures Transpose(Transpose(m, cols), |m|) == m
  {
    var t := Transpose(Transpose(m, cols), |m|);
    forall e | 0 <= e < |m| ensures t[e] == m[e] {
    }
  }
}
