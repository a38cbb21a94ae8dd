/** Matrix transposition (src/lib/secretSharing/transpose.ts), which turns
    the shares of each secret byte into one slice per recipient and back. */
module Matrices {
  import opened Errors

  /** Every row has `cols` entries. */
  predicate Rectangular<T>(m: seq<seq<T>>, cols: nat) {
    forall r :: 0 <= r < |m| ==> |m[r]| == cols
  }

  /** The length of the first row, 0 without rows. */
  function ColumnCount<T>(m: seq<seq<T>>): nat {
    if |m| == 0 then 0 else |m[0]|
  }

  /** Rows become columns.  A row of another length than the first is an
      error, checked before the emptiness of the matrix. */
  function Transpose<T>(m: seq<seq<T>>): (r: Result<seq<seq<T>>>)
    ensures r.Ok? <==> Rectangular(m, ColumnCount(m)) && |m| > 0 && ColumnCount(m) > 0
    ensures !Rectangular(m, ColumnCount(m)) ==> r == Err(PlainError(IrregularDimensions))
    ensures Rectangular(m, ColumnCount(m)) && (|m| == 0 || ColumnCount(m) == 0) ==>
              r == Err(PlainError(EmptyMatrix))
    ensures r.Ok? ==> |r.value| == ColumnCount(m) && Rectangular(r.value, |m|)
    ensures r.Ok? ==> forall c, k :: 0 <= c < |r.value| && 0 <= k < |m| ==> r.value[c][k] == m[k][c]
  {
    var cols := ColumnCount(m);
    if !Rectangular(m, cols) then Err(PlainError(IrregularDimensions))
    else if |m| == 0 || cols == 0 then Err(PlainError(EmptyMatrix))
    else Ok(seq(cols, c requires 0 <= c < cols => seq(|m|, k requires 0 <= k < |m| => m[k][c])))
  }

  /** Transposing a transposed matrix gives the matrix back. */
  lemma TransposeTwice<T>(m: seq<seq<T>>)
    requires Transpose(m).Ok?
    ensures Transpose(Transpose(m).value) == Ok(m)
  {
    var t := Transpose(m).value;
    var b := Transpose(t);
    assert ColumnCount(t) == |m|;
    assert b.Ok?;
    assert |b.value| == |m|;
    forall k | 0 <= k < |m|
      ensures b.value[k] == m[k]
    {
      assert |b.value[k]| == |m[k]| == |t|;
      forall c | 0 <= c < |t|
        ensures b.value[k][c] == m[k][c]
      {
        assert b.value[k][c] == t[c][k];
      }
    }
    assert b.value == m;
  }

  /** The cases of transpose.test.ts: a 2 by 3 matrix, a ragged one and an
      empty one. */
  lemma TransposeExamples()
    ensures Transpose([[1, 2, 3], [4, 5, 6]]) == Ok([[1, 4], [2, 5], [3, 6]])
    ensures Transpose([[1, 2, 3], [4, 5]]) == Err(PlainError(IrregularDimensions))
    ensures Transpose<int>([]) == Err(PlainError(EmptyMatrix))
  {
    var m := [[1, 2, 3], [4, 5, 6]];
    assert ColumnCount(m) == 3 && Rectangular(m, 3);
    var t := Transpose(m).value;
    assert |t| == 3 && Rectangular(t, 2);
    assert t[0] == [m[0][0], m[1][0]] && t[1] == [m[0][1], m[1][1]] && t[2] == [m[0][2], m[1][2]];
    assert t == [[1, 4], [2, 5], [3, 6]];
    var ragged := [[1, 2, 3], [4, 5]];
    assert |ragged[1]| != ColumnCount(ragged);
  }
}
