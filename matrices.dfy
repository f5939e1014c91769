/** The dense-matrix collaborators that the Strassen engine calls: the square
    matrix value, element-wise addition and subtraction (Matrices.add and
    Matrices.sub) and the naive sum-of-products multiplication (Matrices.mul)
    used as the base case. Entries are mathematical integers. */
module Matrices {

  /** A matrix as the sequence of its lines; m[i][j] is the entry in line i,
      position j, as the backing array of a Matrix holds it. */
  type Matrix = seq<seq<int>>

  /** m is a square matrix of dimension n. */
  predicate IsSquare(m: Matrix, n: nat) {
    |m| == n && forall i :: 0 <= i < n ==> |m[i]| == n
  }

  /** Entry-wise sum of two vectors of equal length. */
  function VAdd(u: seq<int>, v: seq<int>): (w: seq<int>)
    requires |u| == |v|
    ensures |w| == |u|
    ensures forall k :: 0 <= k < |u| ==> w[k] == u[k] + v[k]
  {
    seq(|u|, k requires 0 <= k < |u| => u[k] + v[k])
  }

  /** Entry-wise difference of two vectors of equal length. */
  function VSub(u: seq<int>, v: seq<int>): (w: seq<int>)
    requires |u| == |v|
    ensures |w| == |u|
    ensures forall k :: 0 <= k < |u| ==> w[k] == u[k] - v[k]
  {
    seq(|u|, k requires 0 <= k < |u| => u[k] - v[k])
  }

  /** Matrices.add: a new matrix of the same dimension holding the entry-wise sums. */
  function Add(a: Matrix, b: Matrix): (r: Matrix)
    requires IsSquare(a, |a|) && IsSquare(b, |a|)
    ensures IsSquare(r, |a|)
    ensures forall i, j :: 0 <= i < |a| && 0 <= j < |a| ==> r[i][j] == a[i][j] + b[i][j]
  {
    seq(|a|, i requires 0 <= i < |a| => VAdd(a[i], b[i]))
  }

  /** Matrices.sub: a new matrix of the same dimension holding the entry-wise differences. */
  function Sub(a: Matrix, b: Matrix): (r: Matrix)
    requires IsSquare(a, |a|) && IsSquare(b, |a|)
    ensures IsSquare(r, |a|)
    ensures forall i, j :: 0 <= i < |a| && 0 <= j < |a| ==> r[i][j] == a[i][j] - b[i][j]
  {
    seq(|a|, i requires 0 <= i < |a| => VSub(a[i], b[i]))
  }

  /** The sum u[0]*v[0] + ... + u[k-1]*v[k-1], accumulated from the left. */
  function Dot(u: seq<int>, v: seq<int>): (d: int)
    requires |u| == |v|
    decreases |u|
  {
    if |u| == 0 then 0
    else Dot(u[..|u| - 1], v[..|v| - 1]) + u[|u| - 1] * v[|v| - 1]
  }

  /** Column j of m, read across all of its lines. */
  function Column(m: Matrix, j: nat): (c: seq<int>)
    requires forall i :: 0 <= i < |m| ==> j < |m[i]|
    ensures |c| == |m|
    ensures forall i :: 0 <= i < |m| ==> c[i] == m[i][j]
  {
    seq(|m|, i requires 0 <= i < |m| => m[i][j])
  }

  /** Matrices.mul, the naive product: entry (i, j) is the sum over k of a[i][k] * b[k][j]. */
  function MatMul(a: Matrix, b: Matrix): (r: Matrix)
    requires IsSquare(a, |a|) && IsSquare(b, |a|)
    ensures IsSquare(r, |a|)
    ensures forall i, j :: 0 <= i < |a| && 0 <= j < |a| ==> r[i][j] == Dot(a[i], Column(b, j))
  {
    var n := |a|;
    seq(n, i requires 0 <= i < n => seq(n, j requires 0 <= j < n => Dot(a[i], Column(b, j))))
  }

  /** Two square matrices of one dimension are equal when all their entries are. */
  lemma SquareEqual(x: Matrix, y: Matrix, n: nat)
    requires IsSquare(x, n) && IsSquare(y, n)
    requires forall i, j :: 0 <= i < n && 0 <= j < n ==> x[i][j] == y[i][j]
    ensures x == y
  {
    assert forall i :: 0 <= i < n ==> x[i] == y[i];
  }

  /** A dot product over concatenated vectors is the sum of the two partial dot products. */
  lemma {:induction false} DotAppend(u1: seq<int>, u2: seq<int>, v1: seq<int>, v2: seq<int>)
    requires |u1| == |v1| && |u2| == |v2|
    ensures Dot(u1 + u2, v1 + v2) == Dot(u1, v1) + Dot(u2, v2)
    decreases |u2|
  {
    if |u2| == 0 {
      assert u1 + u2 == u1;
      assert v1 + v2 == v1;
    } else {
      var k := |u2| - 1;
      assert (u1 + u2)[..|u1| + k] == u1 + u2[..k];
      assert (v1 + v2)[..|v1| + k] == v1 + v2[..k];
      DotAppend(u1, u2[..k], v1, v2[..k]);
    }
  }

  /** A dot product is the sum of the dot products of the first s entries and of the rest. */
  lemma DotHalves(u: seq<int>, v: seq<int>, s: nat)
    requires |u| == |v| && s <= |u|
    ensures Dot(u, v) == Dot(u[..s], v[..s]) + Dot(u[s..], v[s..])
  {
    assert u == u[..s] + u[s..];
    assert v == v[..s] + v[s..];
    DotAppend(u[..s], u[s..], v[..s], v[s..]);
  }

  /** The dot product is additive in its left argument. */
  lemma {:induction false} DotAddLeft(u: seq<int>, w: seq<int>, v: seq<int>)
    requires |u| == |w| == |v|
    ensures Dot(VAdd(u, w), v) == Dot(u, v) + Dot(w, v)
    decreases |u|
  {
    if |u| > 0 {
      var k := |u| - 1;
      assert VAdd(u, w)[..k] == VAdd(u[..k], w[..k]);
      DotAddLeft(u[..k], w[..k], v[..k]);
    }
  }

  /** The dot product is subtractive in its left argument. */
  lemma {:induction false} DotSubLeft(u: seq<int>, w: seq<int>, v: seq<int>)
    requires |u| == |w| == |v|
    ensures Dot(VSub(u, w), v) == Dot(u, v) - Dot(w, v)
    decreases |u|
  {
    if |u| > 0 {
      var k := |u| - 1;
      assert VSub(u, w)[..k] == VSub(u[..k], w[..k]);
      DotSubLeft(u[..k], w[..k], v[..k]);
    }
  }

  /** The dot product is additive in its right argument. */
  lemma {:induction false} DotAddRight(u: seq<int>, v: seq<int>, w: seq<int>)
    requires |u| == |v| == |w|
    ensures Dot(u, VAdd(v, w)) == Dot(u, v) + Dot(u, w)
    decreases |u|
  {
    if |u| > 0 {
      var k := |u| - 1;
      assert VAdd(v, w)[..k] == VAdd(v[..k], w[..k]);
      DotAddRight(u[..k], v[..k], w[..k]);
    }
  }

  /** The dot product is subtractive in its right argument. */
  lemma {:induction false} DotSubRight(u: seq<int>, v: seq<int>, w: seq<int>)
    requires |u| == |v| == |w|
    ensures Dot(u, VSub(v, w)) == Dot(u, v) - Dot(u, w)
    decreases |u|
  {
    if |u| > 0 {
      var k := |u| - 1;
      assert VSub(v, w)[..k] == VSub(v[..k], w[..k]);
      DotSubRight(u[..k], v[..k], w[..k]);
    }
  }

  /** (a + b) * c == a * c + b * c, entry by entry. */
  lemma MulAddLeft(a: Matrix, b: Matrix, c: Matrix, i: nat, j: nat)
    requires IsSquare(a, |a|) && IsSquare(b, |a|) && IsSquare(c, |a|)
    requires i < |a| && j < |a|
    ensures MatMul(Add(a, b), c)[i][j] == MatMul(a, c)[i][j] + MatMul(b, c)[i][j]
  {
    assert Add(a, b)[i] == VAdd(a[i], b[i]);
    DotAddLeft(a[i], b[i], Column(c, j));
  }

  /** (a - b) * c == a * c - b * c, entry by entry. */
  lemma MulSubLeft(a: Matrix, b: Matrix, c: Matrix, i: nat, j: nat)
    requires IsSquare(a, |a|) && IsSquare(b, |a|) && IsSquare(c, |a|)
    requires i < |a| && j < |a|
    ensures MatMul(Sub(a, b), c)[i][j] == MatMul(a, c)[i][j] - MatMul(b, c)[i][j]
  {
    assert Sub(a, b)[i] == VSub(a[i], b[i]);
    DotSubLeft(a[i], b[i], Column(c, j));
  }

  /** a * (b + c) == a * b + a * c, entry by entry. */
  lemma MulAddRight(a: Matrix, b: Matrix, c: Matrix, i: nat, j: nat)
    requires IsSquare(a, |a|) && IsSquare(b, |a|) && IsSquare(c, |a|)
    requires i < |a| && j < |a|
    ensures MatMul(a, Add(b, c))[i][j] == MatMul(a, b)[i][j] + MatMul(a, c)[i][j]
  {
    assert Column(Add(b, c), j) == VAdd(Column(b, j), Column(c, j));
    DotAddRight(a[i], Column(b, j), Column(c, j));
  }

  /** a * (b - c) == a * b - a * c, entry by entry. */
  lemma MulSubRight(a: Matrix, b: Matrix, c: Matrix, i: nat, j: nat)
    requires IsSquare(a, |a|) && IsSquare(b, |a|) && IsSquare(c, |a|)
    requires i < |a| && j < |a|
    ensures MatMul(a, Sub(b, c))[i][j] == MatMul(a, b)[i][j] - MatMul(a, c)[i][j]
  {
    assert Column(Sub(b, c), j) == VSub(Column(b, j), Column(c, j));
    DotSubRight(a[i], Column(b, j), Column(c, j));
  }

  /** The identity matrix of dimension n. */
  function Identity(n: nat): (m: Matrix)
    ensures IsSquare(m, n)
    ensures forall i, j :: 0 <= i < n && 0 <= j < n ==> m[i][j] == if i == j then 1 else 0
  {
    seq(n, i requires 0 <= i < n => seq(n, j requires 0 <= j < n => if i == j then 1 else 0))
  }

  /** The zero matrix of dimension n, as a Matrix of that size is created. */
  function Zero(n: nat): (m: Matrix)
    ensures IsSquare(m, n)
    ensures forall i, j :: 0 <= i < n && 0 <= j < n ==> m[i][j] == 0
  {
    seq(n, i requires 0 <= i < n => seq(n, j requires 0 <= j < n => 0))
  }

  /** Dotting with the k-th unit vector on the right picks entry k. */
  lemma {:induction false} DotUnitRight(u: seq<int>, v: seq<int>, k: nat)
    requires |u| == |v|
    requires forall t :: 0 <= t < |v| ==> v[t] == if t == k then 1 else 0
    ensures Dot(u, v) == if k < |u| then u[k] else 0
    decreases |u|
  {
    if |u| > 0 {
      DotUnitRight(u[..|u| - 1], v[..|v| - 1], k);
    }
  }

  /** Dotting with the k-th unit vector on the left picks entry k. */
  lemma {:induction false} DotUnitLeft(u: seq<int>, v: seq<int>, k: nat)
    requires |u| == |v|
    requires forall t :: 0 <= t < |u| ==> u[t] == if t == k then 1 else 0
    ensures Dot(u, v) == if k < |v| then v[k] else 0
    decreases |u|
  {
    if |u| > 0 {
      DotUnitLeft(u[..|u| - 1], v[..|v| - 1], k);
    }
  }

  /** A dot product with an all-zero vector on either side is zero. */
  lemma {:induction false} DotZero(u: seq<int>, v: seq<int>)
    requires |u| == |v|
    requires (forall t :: 0 <= t < |u| ==> u[t] == 0) || (forall t :: 0 <= t < |v| ==> v[t] == 0)
    ensures Dot(u, v) == 0
    decreases |u|
  {
    if |u| > 0 {
      DotZero(u[..|u| - 1], v[..|v| - 1]);
    }
  }

  /** The identity is neutral for the naive product on both sides. */
  lemma MatMulIdentity(m: Matrix)
    requires IsSquare(m, |m|)
    ensures MatMul(Identity(|m|), m) == m
    ensures MatMul(m, Identity(|m|)) == m
  {
    var n := |m|;
    forall i, j | 0 <= i < n && 0 <= j < n
      ensures MatMul(Identity(n), m)[i][j] == m[i][j]
      ensures MatMul(m, Identity(n))[i][j] == m[i][j]
    {
      DotUnitLeft(Identity(n)[i], Column(m, j), i);
      DotUnitRight(m[i], Column(Identity(n), j), j);
    }
    SquareEqual(MatMul(Identity(n), m), m, n);
    SquareEqual(MatMul(m, Identity(n)), m, n);
  }

  /** A zero operand on either side makes the naive product zero. */
  lemma MatMulZero(m: Matrix)
    requires IsSquare(m, |m|)
    ensures MatMul(Zero(|m|), m) == Zero(|m|)
    ensures MatMul(m, Zero(|m|)) == Zero(|m|)
  {
    var n := |m|;
    forall i, j | 0 <= i < n && 0 <= j < n
      ensures MatMul(Zero(n), m)[i][j] == 0
      ensures MatMul(m, Zero(n))[i][j] == 0
    {
      DotZero(Zero(n)[i], Column(m, j));
      DotZero(m[i], Column(Zero(n), j));
    }
    SquareEqual(MatMul(Zero(n), m), Zero(n), n);
    SquareEqual(MatMul(m, Zero(n)), Zero(n), n);
  }
}
