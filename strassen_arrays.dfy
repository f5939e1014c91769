/** split and join as the engine runs them: each allocates zero-filled square
    arrays and fills them line by line with copies at computed offsets. Line i
    of an array2 is a[i, ..], the line a Matrix hands out for index i. */
module StrassenArrays {
  import opened Matrices
  import opened StrassenProduct

  /** The matrix value an array holds. */
  function Contents(a: array2<int>): (m: Matrix)
    reads a
    ensures |m| == a.Length0
    ensures forall i :: 0 <= i < a.Length0 ==> |m[i]| == a.Length1
    ensures forall i, j :: 0 <= i < a.Length0 && 0 <= j < a.Length1 ==> m[i][j] == a[i, j]
  {
    seq(a.Length0, i reads a requires 0 <= i < a.Length0 =>
      seq(a.Length1, j reads a requires 0 <= j < a.Length1 => a[i, j]))
  }

  /** System.arraycopy between lines: positions dstPos .. dstPos+length-1 of
      line dstLine of dst receive the entries of line srcLine of src that start
      at srcPos; nothing else in dst changes. */
  method ArrayCopy(src: array2<int>, srcLine: nat, srcPos: nat,
                   dst: array2<int>, dstLine: nat, dstPos: nat, length: nat)
    requires src != dst
    requires srcLine < src.Length0 && srcPos + length <= src.Length1
    requires dstLine < dst.Length0 && dstPos + length <= dst.Length1
    modifies dst
    ensures forall i, j :: 0 <= i < dst.Length0 && 0 <= j < dst.Length1 ==>
      dst[i, j] == if i == dstLine && dstPos <= j < dstPos + length
                   then src[srcLine, srcPos + (j - dstPos)]
                   else old(dst[i, j])
  {
    var k := 0;
    while k < length
      invariant k <= length
      invariant forall i, j :: 0 <= i < dst.Length0 && 0 <= j < dst.Length1 ==>
        dst[i, j] == if i == dstLine && dstPos <= j < dstPos + k
                     then src[srcLine, srcPos + (j - dstPos)]
                     else old(dst[i, j])
    {
      dst[dstLine, dstPos + k] := src[srcLine, srcPos + k];
      k := k + 1;
    }
  }

  /** split: four fresh, distinct arrays of dimension n >> 1 holding the four
      quadrants of a; a itself is not changed. */
  method SplitArrays(a: array2<int>) returns (a11: array2<int>, a12: array2<int>, a21: array2<int>, a22: array2<int>)
    requires a.Length0 == a.Length1
    ensures fresh(a11) && fresh(a12) && fresh(a21) && fresh(a22)
    ensures a11 != a12 && a11 != a21 && a11 != a22 && a12 != a21 && a12 != a22 && a21 != a22
    ensures Quad(Contents(a11), Contents(a12), Contents(a21), Contents(a22)) == Split(Contents(a))
  {
    var size := a.Length0 / 2;
    a11 := new int[size, size]((i, j) => 0);
    a12 := new int[size, size]((i, j) => 0);
    a21 := new int[size, size]((i, j) => 0);
    a22 := new int[size, size]((i, j) => 0);
    for i := 0 to size
      invariant forall r, c :: 0 <= r < i && 0 <= c < size ==>
        && a11[r, c] == a[r, c]
        && a12[r, c] == a[r, size + c]
        && a21[r, c] == a[size + r, c]
        && a22[r, c] == a[size + r, size + c]
    {
      ArrayCopy(a, i, 0, a11, i, 0, size);
      ArrayCopy(a, i, size, a12, i, 0, size);
      ArrayCopy(a, size + i, 0, a21, i, 0, size);
      ArrayCopy(a, size + i, size, a22, i, 0, size);
    }
    var m := Contents(a);
    SplitEntries(m);
    SquareEqual(Contents(a11), Split(m).a11, size);
    SquareEqual(Contents(a12), Split(m).a12, size);
    SquareEqual(Contents(a21), Split(m).a21, size);
    SquareEqual(Contents(a22), Split(m).a22, size);
  }

  /** join: a fresh array of dimension size << 1, size being the dimension of
      a11, whose quadrants hold the four inputs, every entry written. */
  method JoinArrays(a11: array2<int>, a12: array2<int>, a21: array2<int>, a22: array2<int>) returns (joined: array2<int>)
    requires a11.Length0 == a11.Length1
    requires a12.Length0 == a12.Length1 == a11.Length0
    requires a21.Length0 == a21.Length1 == a11.Length0
    requires a22.Length0 == a22.Length1 == a11.Length0
    ensures fresh(joined)
    ensures Contents(joined) == Join(Quad(Contents(a11), Contents(a12), Contents(a21), Contents(a22)))
  {
    var size := a11.Length0;
    joined := new int[2 * size, 2 * size]((i, j) => 0);
    for i := 0 to size
      invariant forall r, c :: 0 <= r < i && 0 <= c < size ==>
        && joined[r, c] == a11[r, c]
        && joined[r, size + c] == a12[r, c]
        && joined[size + r, c] == a21[r, c]
        && joined[size + r, size + c] == a22[r, c]
    {
      ArrayCopy(a11, i, 0, joined, i, 0, size);
      ArrayCopy(a12, i, 0, joined, i, size, size);
      ArrayCopy(a21, i, 0, joined, size + i, 0, size);
      ArrayCopy(a22, i, 0, joined, size + i, size, size);
    }
    var q := Quad(Contents(a11), Contents(a12), Contents(a21), Contents(a22));
    forall r, c | 0 <= r < 2 * size && 0 <= c < 2 * size
      ensures Contents(joined)[r][c] == Join(q)[r][c]
    {
      if r < size && c < size {
        assert joined[r, c] == a11[r, c];
      } else if r < size {
        assert joined[r, c] == a12[r, c - size];
      } else if c < size {
        assert joined[r, c] == a21[r - size, c];
      } else {
        assert joined[r, c] == a22[r - size, c - size];
      }
    }
    SquareEqual(Contents(joined), Join(q), 2 * size);
  }
}
