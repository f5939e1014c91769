/** The fast multiplication engine: quadrant split and join, the seven-product
    Strassen recurrence and the threshold dispatch to the naive multiplier.
    Split, Join and Mul are the values the engine computes; the methods that
    fill freshly allocated arrays line by line are in StrassenArrays. */
module StrassenProduct {
  import opened Matrices

  /** Operands of dimension at most this go straight to the naive multiplier. */
  const Threshold: nat := 32

  /** The four quadrants of a matrix, in the order split returns them and join
      takes them: top-left, top-right, bottom-left, bottom-right. */
  datatype Quad = Quad(a11: Matrix, a12: Matrix, a21: Matrix, a22: Matrix)

  /** All four quadrants are square of dimension s. */
  predicate QuadSquare(q: Quad, s: nat) {
    IsSquare(q.a11, s) && IsSquare(q.a12, s) && IsSquare(q.a21, s) && IsSquare(q.a22, s)
  }

  /** The s-by-s block of m made of lines r .. r+s-1, each read from position c on. */
  function Block(m: Matrix, r: nat, c: nat, s: nat): (b: Matrix)
    requires r + s <= |m|
    requires forall i :: r <= i < r + s ==> c + s <= |m[i]|
    ensures IsSquare(b, s)
    ensures forall i, j :: 0 <= i < s && 0 <= j < s ==> b[i][j] == m[r + i][c + j]
  {
    seq(s, i requires 0 <= i < s => seq(s, j requires 0 <= j < s => m[r + i][c + j]))
  }

  /** split: the four quadrants of dimension size = n >> 1. For odd n the last
      line and the last position of every line fall outside all four. */
  function Split(m: Matrix): (q: Quad)
    requires IsSquare(m, |m|)
    ensures QuadSquare(q, |m| / 2)
  {
    var size := |m| / 2;
    Quad(Block(m, 0, 0, size), Block(m, 0, size, size),
         Block(m, size, 0, size), Block(m, size, size, size))
  }

  /** join: the matrix of dimension size << 1 whose quadrants are the four
      inputs, size being the dimension of a11. */
  function Join(q: Quad): (m: Matrix)
    requires QuadSquare(q, |q.a11|)
    ensures IsSquare(m, 2 * |q.a11|)
  {
    var size := |q.a11|;
    seq(2 * size, i requires 0 <= i < 2 * size =>
      seq(2 * size, j requires 0 <= j < 2 * size =>
        if i < size then
          if j < size then q.a11[i][j] else q.a12[i][j - size]
        else
          if j < size then q.a21[i - size][j] else q.a22[i - size][j - size]))
  }

  /** split's entry mapping: quadrant a11 holds m[i][j], a12 holds m[i][size + j],
      a21 holds m[size + i][j] and a22 holds m[size + i][size + j], for i and j
      below size = n >> 1. */
  lemma SplitEntries(m: Matrix)
    requires IsSquare(m, |m|)
    ensures forall i, j :: 0 <= i < |m| / 2 && 0 <= j < |m| / 2 ==> Split(m).a11[i][j] == m[i][j]
    ensures forall i, j :: 0 <= i < |m| / 2 && 0 <= j < |m| / 2 ==> Split(m).a12[i][j] == m[i][|m| / 2 + j]
    ensures forall i, j :: 0 <= i < |m| / 2 && 0 <= j < |m| / 2 ==> Split(m).a21[i][j] == m[|m| / 2 + i][j]
    ensures forall i, j :: 0 <= i < |m| / 2 && 0 <= j < |m| / 2 ==> Split(m).a22[i][j] == m[|m| / 2 + i][|m| / 2 + j]
  {
  }

  /** join's entry mapping: the quadrants of the result hold a11, a12, a21 and
      a22 at offsets 0 and size, so every entry of the result is written. */
  lemma JoinEntries(q: Quad)
    requires QuadSquare(q, |q.a11|)
    ensures forall i, j :: 0 <= i < |q.a11| && 0 <= j < |q.a11| ==> Join(q)[i][j] == q.a11[i][j]
    ensures forall i, j :: 0 <= i < |q.a11| && 0 <= j < |q.a11| ==> Join(q)[i][|q.a11| + j] == q.a12[i][j]
    ensures forall i, j :: 0 <= i < |q.a11| && 0 <= j < |q.a11| ==> Join(q)[|q.a11| + i][j] == q.a21[i][j]
    ensures forall i, j :: 0 <= i < |q.a11| && 0 <= j < |q.a11| ==> Join(q)[|q.a11| + i][|q.a11| + j] == q.a22[i][j]
  {
  }

  /** Joining the quadrants of a matrix of even dimension gives the matrix back. */
  lemma JoinSplit(m: Matrix)
    requires IsSquare(m, |m|) && |m| % 2 == 0
    ensures Join(Split(m)) == m
  {
    var s := |m| / 2;
    var q := Split(m);
    var r := Join(q);
    assert |m| == 2 * s;
    forall i, j | 0 <= i < |m| && 0 <= j < |m|
      ensures r[i][j] == m[i][j]
    {
      if i < s && j < s {
        assert r[i][j] == q.a11[i][j];
      } else if i < s {
        assert r[i][j] == q.a12[i][j - s];
      } else if j < s {
        assert r[i][j] == q.a21[i - s][j];
      } else {
        assert r[i][j] == q.a22[i - s][j - s];
      }
    }
    SquareEqual(r, m, |m|);
  }

  /** Splitting the join of four equal-dimension quadrants gives the four back. */
  lemma SplitJoin(q: Quad)
    requires QuadSquare(q, |q.a11|)
    ensures Split(Join(q)) == q
  {
    var s := |q.a11|;
    var m := Join(q);
    var p := Split(m);
    assert |m| / 2 == s;
    forall i, j | 0 <= i < s && 0 <= j < s
      ensures p.a11[i][j] == q.a11[i][j] && p.a12[i][j] == q.a12[i][j]
      ensures p.a21[i][j] == q.a21[i][j] && p.a22[i][j] == q.a22[i][j]
    {
      assert p.a12[i][j] == m[i][s + j];
      assert p.a21[i][j] == m[s + i][j];
      assert p.a22[i][j] == m[s + i][s + j];
    }
    SquareEqual(p.a11, q.a11, s);
    SquareEqual(p.a12, q.a12, s);
    SquareEqual(p.a21, q.a21, s);
    SquareEqual(p.a22, q.a22, s);
  }

  /** The result quadrants c11, c12, c21, c22 formed from the seven products. */
  function Combine(p1: Matrix, p2: Matrix, p3: Matrix, p4: Matrix, p5: Matrix, p6: Matrix, p7: Matrix): (c: Quad)
    requires IsSquare(p1, |p1|) && IsSquare(p2, |p1|) && IsSquare(p3, |p1|) && IsSquare(p4, |p1|)
    requires IsSquare(p5, |p1|) && IsSquare(p6, |p1|) && IsSquare(p7, |p1|)
    ensures QuadSquare(c, |p1|)
  {
    Quad(Add(Sub(Add(p1, p4), p5), p7),
         Add(p3, p5),
         Add(p2, p4),
         Add(Sub(Add(p1, p3), p2), p6))
  }

  /** Entry (i, j) of each result quadrant as the sum of the products' entries. */
  lemma CombineEntries(p1: Matrix, p2: Matrix, p3: Matrix, p4: Matrix, p5: Matrix, p6: Matrix, p7: Matrix, i: nat, j: nat)
    requires IsSquare(p1, |p1|) && IsSquare(p2, |p1|) && IsSquare(p3, |p1|) && IsSquare(p4, |p1|)
    requires IsSquare(p5, |p1|) && IsSquare(p6, |p1|) && IsSquare(p7, |p1|)
    requires i < |p1| && j < |p1|
    ensures Combine(p1, p2, p3, p4, p5, p6, p7).a11[i][j] == p1[i][j] + p4[i][j] - p5[i][j] + p7[i][j]
    ensures Combine(p1, p2, p3, p4, p5, p6, p7).a12[i][j] == p3[i][j] + p5[i][j]
    ensures Combine(p1, p2, p3, p4, p5, p6, p7).a21[i][j] == p2[i][j] + p4[i][j]
    ensures Combine(p1, p2, p3, p4, p5, p6, p7).a22[i][j] == p1[i][j] + p3[i][j] - p2[i][j] + p6[i][j]
  {
  }

  /** The textbook block product of two quadrant decompositions: eight half-size products. */
  function BlockProduct(a: Quad, b: Quad): (c: Quad)
    requires QuadSquare(a, |a.a11|) && QuadSquare(b, |a.a11|)
    ensures QuadSquare(c, |a.a11|)
  {
    Quad(Add(MatMul(a.a11, b.a11), MatMul(a.a12, b.a21)),
         Add(MatMul(a.a11, b.a12), MatMul(a.a12, b.a22)),
         Add(MatMul(a.a21, b.a11), MatMul(a.a22, b.a21)),
         Add(MatMul(a.a21, b.a12), MatMul(a.a22, b.a22)))
  }

  /** Entry (i, j) of each of the seven Strassen products, expanded into the
      eight block products by bilinearity. */
  lemma SevenProductsEntry(a: Quad, b: Quad, i: nat, j: nat)
    requires QuadSquare(a, |a.a11|) && QuadSquare(b, |a.a11|)
    requires i < |a.a11| && j < |a.a11|
    ensures MatMul(Add(a.a11, a.a22), Add(b.a11, b.a22))[i][j] ==
      MatMul(a.a11, b.a11)[i][j] + MatMul(a.a11, b.a22)[i][j] + MatMul(a.a22, b.a11)[i][j] + MatMul(a.a22, b.a22)[i][j]
    ensures MatMul(Add(a.a21, a.a22), b.a11)[i][j] ==
      MatMul(a.a21, b.a11)[i][j] + MatMul(a.a22, b.a11)[i][j]
    ensures MatMul(a.a11, Sub(b.a12, b.a22))[i][j] ==
      MatMul(a.a11, b.a12)[i][j] - MatMul(a.a11, b.a22)[i][j]
    ensures MatMul(a.a22, Sub(b.a21, b.a11))[i][j] ==
      MatMul(a.a22, b.a21)[i][j] - MatMul(a.a22, b.a11)[i][j]
    ensures MatMul(Add(a.a11, a.a12), b.a22)[i][j] ==
      MatMul(a.a11, b.a22)[i][j] + MatMul(a.a12, b.a22)[i][j]
    ensures MatMul(Sub(a.a21, a.a11), Add(b.a11, b.a12))[i][j] ==
      MatMul(a.a21, b.a11)[i][j] + MatMul(a.a21, b.a12)[i][j] - MatMul(a.a11, b.a11)[i][j] - MatMul(a.a11, b.a12)[i][j]
    ensures MatMul(Sub(a.a12, a.a22), Add(b.a21, b.a22))[i][j] ==
      MatMul(a.a12, b.a21)[i][j] + MatMul(a.a12, b.a22)[i][j] - MatMul(a.a22, b.a21)[i][j] - MatMul(a.a22, b.a22)[i][j]
  {
    MulAddLeft(a.a11, a.a22, Add(b.a11, b.a22), i, j);
    MulAddRight(a.a11, b.a11, b.a22, i, j);
    MulAddRight(a.a22, b.a11, b.a22, i, j);

    MulAddLeft(a.a21, a.a22, b.a11, i, j);

    MulSubRight(a.a11, b.a12, b.a22, i, j);

    MulSubRight(a.a22, b.a21, b.a11, i, j);

    MulAddLeft(a.a11, a.a12, b.a22, i, j);

    MulSubLeft(a.a21, a.a11, Add(b.a11, b.a12), i, j);
    MulAddRight(a.a21, b.a11, b.a12, i, j);
    MulAddRight(a.a11, b.a11, b.a12, i, j);

    MulSubLeft(a.a12, a.a22, Add(b.a21, b.a22), i, j);
    MulAddRight(a.a12, b.a21, b.a22, i, j);
    MulAddRight(a.a22, b.a21, b.a22, i, j);
  }

  /** Entry (i, j) of each block-product quadrant as the sum of two product entries. */
  lemma BlockProductEntries(a: Quad, b: Quad, i: nat, j: nat)
    requires QuadSquare(a, |a.a11|) && QuadSquare(b, |a.a11|)
    requires i < |a.a11| && j < |a.a11|
    ensures BlockProduct(a, b).a11[i][j] == MatMul(a.a11, b.a11)[i][j] + MatMul(a.a12, b.a21)[i][j]
    ensures BlockProduct(a, b).a12[i][j] == MatMul(a.a11, b.a12)[i][j] + MatMul(a.a12, b.a22)[i][j]
    ensures BlockProduct(a, b).a21[i][j] == MatMul(a.a21, b.a11)[i][j] + MatMul(a.a22, b.a21)[i][j]
    ensures BlockProduct(a, b).a22[i][j] == MatMul(a.a21, b.a12)[i][j] + MatMul(a.a22, b.a22)[i][j]
  {
  }

  /** The seven Strassen products of a and b, combined as mul combines them. */
  function StrassenQuad(a: Quad, b: Quad): (c: Quad)
    requires QuadSquare(a, |a.a11|) && QuadSquare(b, |a.a11|)
    ensures QuadSquare(c, |a.a11|)
  {
    Combine(
      MatMul(Add(a.a11, a.a22), Add(b.a11, b.a22)),
      MatMul(Add(a.a21, a.a22), b.a11),
      MatMul(a.a11, Sub(b.a12, b.a22)),
      MatMul(a.a22, Sub(b.a21, b.a11)),
      MatMul(Add(a.a11, a.a12), b.a22),
      MatMul(Sub(a.a21, a.a11), Add(b.a11, b.a12)),
      MatMul(Sub(a.a12, a.a22), Add(b.a21, b.a22)))
  }

  /** The Strassen identity at one entry of each quadrant. */
  lemma StrassenEntries(a: Quad, b: Quad, i: nat, j: nat)
    requires QuadSquare(a, |a.a11|) && QuadSquare(b, |a.a11|)
    requires i < |a.a11| && j < |a.a11|
    ensures StrassenQuad(a, b).a11[i][j] == BlockProduct(a, b).a11[i][j]
    ensures StrassenQuad(a, b).a12[i][j] == BlockProduct(a, b).a12[i][j]
    ensures StrassenQuad(a, b).a21[i][j] == BlockProduct(a, b).a21[i][j]
    ensures StrassenQuad(a, b).a22[i][j] == BlockProduct(a, b).a22[i][j]
  {
    SevenProductsEntry(a, b, i, j);
    CombineEntries(
      MatMul(Add(a.a11, a.a22), Add(b.a11, b.a22)),
      MatMul(Add(a.a21, a.a22), b.a11),
      MatMul(a.a11, Sub(b.a12, b.a22)),
      MatMul(a.a22, Sub(b.a21, b.a11)),
      MatMul(Add(a.a11, a.a12), b.a22),
      MatMul(Sub(a.a21, a.a11), Add(b.a11, b.a12)),
      MatMul(Sub(a.a12, a.a22), Add(b.a21, b.a22)), i, j);
    BlockProductEntries(a, b, i, j);
  }

  /** The Strassen identity: combining the seven products of quadrant sums and
      differences gives the same four quadrants as the eight-product block product. */
  lemma StrassenCombine(a: Quad, b: Quad)
    requires QuadSquare(a, |a.a11|) && QuadSquare(b, |a.a11|)
    ensures StrassenQuad(a, b) == BlockProduct(a, b)
  {
    var s := |a.a11|;
    var c, d := StrassenQuad(a, b), BlockProduct(a, b);
    forall i, j | 0 <= i < s && 0 <= j < s
      ensures c.a11[i][j] == d.a11[i][j] && c.a12[i][j] == d.a12[i][j]
      ensures c.a21[i][j] == d.a21[i][j] && c.a22[i][j] == d.a22[i][j]
    {
      StrassenEntries(a, b, i, j);
    }
    SquareEqual(c.a11, d.a11, s);
    SquareEqual(c.a12, d.a12, s);
    SquareEqual(c.a21, d.a21, s);
    SquareEqual(c.a22, d.a22, s);
  }

  /** Entry (r + i, c + j) of a product of dimension 2s, with r and c each 0 or
      s, is line i of the block at (r, 0) times column j of the block at (0, c)
      plus line i of the block at (r, s) times column j of the block at (s, c). */
  lemma ProductEntryOfBlocks(m1: Matrix, m2: Matrix, s: nat, r: nat, c: nat, i: nat, j: nat)
    requires IsSquare(m1, 2 * s) && IsSquare(m2, 2 * s) && r <= s && c <= s && i < s && j < s
    ensures Dot(m1[r + i], Column(m2, c + j)) ==
      Dot(Block(m1, r, 0, s)[i], Column(Block(m2, 0, c, s), j)) +
      Dot(Block(m1, r, s, s)[i], Column(Block(m2, s, c, s), j))
  {
    var u, v := m1[r + i], Column(m2, c + j);
    assert u[..s] == Block(m1, r, 0, s)[i];
    assert u[s..] == Block(m1, r, s, s)[i];
    assert v[..s] == Column(Block(m2, 0, c, s), j);
    assert v[s..] == Column(Block(m2, s, c, s), j);
    DotHalves(u, v, s);
  }

  /** The block at (r, c) of a product of dimension 2s, with r and c each 0 or
      s, is the sum of the two half-size block products that meet there. */
  lemma BlockOfProduct(m1: Matrix, m2: Matrix, s: nat, r: nat, c: nat)
    requires IsSquare(m1, 2 * s) && IsSquare(m2, 2 * s) && r <= s && c <= s
    ensures Block(MatMul(m1, m2), r, c, s) ==
      Add(MatMul(Block(m1, r, 0, s), Block(m2, 0, c, s)), MatMul(Block(m1, r, s, s), Block(m2, s, c, s)))
  {
    var lhs := Block(MatMul(m1, m2), r, c, s);
    var rhs := Add(MatMul(Block(m1, r, 0, s), Block(m2, 0, c, s)), MatMul(Block(m1, r, s, s), Block(m2, s, c, s)));
    forall i, j | 0 <= i < s && 0 <= j < s
      ensures lhs[i][j] == rhs[i][j]
    {
      ProductEntryOfBlocks(m1, m2, s, r, c, i, j);
    }
    SquareEqual(lhs, rhs, s);
  }

  /** The quadrants of a product of even dimension are the block products of the
      operands' quadrants. */
  lemma SplitProduct(m1: Matrix, m2: Matrix)
    requires IsSquare(m1, |m1|) && IsSquare(m2, |m1|) && |m1| % 2 == 0
    ensures Split(MatMul(m1, m2)) == BlockProduct(Split(m1), Split(m2))
  {
    var s := |m1| / 2;
    assert |m1| == 2 * s;
    BlockOfProduct(m1, m2, s, 0, 0);
    BlockOfProduct(m1, m2, s, 0, s);
    BlockOfProduct(m1, m2, s, s, 0);
    BlockOfProduct(m1, m2, s, s, s);
  }

  /** Every dimension above the threshold reached by repeated halving is even,
      so that no split drops a line. */
  predicate Halvable(n: nat) {
    n <= Threshold || (n % 2 == 0 && Halvable(n / 2))
  }

  /** The dimension of what mul returns for operands of dimension n: below the
      threshold the naive product keeps n, above it join doubles the dimension
      n >> 1 of the recursive results. */
  function OutDim(n: nat): (k: nat) {
    if n <= Threshold then n else 2 * OutDim(n / 2)
  }

  /** mul never returns a larger matrix than its operands, and returns one of
      the operands' dimension exactly when that dimension is halvable. */
  lemma {:induction false} OutDimExact(n: nat)
    ensures OutDim(n) <= n
    ensures OutDim(n) == n <==> Halvable(n)
    decreases n
  {
    if n > Threshold {
      OutDimExact(n / 2);
    }
  }

  /** StrassenProduct.mul as written: the naive product at or below the
      threshold, otherwise the seven recursive products of quadrant sums and
      differences, combined and joined. Defined for every square dimension; the
      result has dimension OutDim(n), which is n only when n is halvable. */
  function Mul(m1: Matrix, m2: Matrix): (r: Matrix)
    requires IsSquare(m1, |m1|) && IsSquare(m2, |m1|)
    ensures IsSquare(r, OutDim(|m1|))
    decreases |m1|
  {
    if |m1| <= Threshold then
      MatMul(m1, m2)
    else
      var a := Split(m1);
      var b := Split(m2);
      var p1 := Mul(Add(a.a11, a.a22), Add(b.a11, b.a22));
      var p2 := Mul(Add(a.a21, a.a22), b.a11);
      var p3 := Mul(a.a11, Sub(b.a12, b.a22));
      var p4 := Mul(a.a22, Sub(b.a21, b.a11));
      var p5 := Mul(Add(a.a11, a.a12), b.a22);
      var p6 := Mul(Sub(a.a21, a.a11), Add(b.a11, b.a12));
      var p7 := Mul(Sub(a.a12, a.a22), Add(b.a21, b.a22));
      Join(Combine(p1, p2, p3, p4, p5, p6, p7))
  }

  /** For halvable dimensions, mul computes the mathematical matrix product. */
  lemma {:induction false} MulCorrect(m1: Matrix, m2: Matrix)
    requires IsSquare(m1, |m1|) && IsSquare(m2, |m1|) && Halvable(|m1|)
    ensures Mul(m1, m2) == MatMul(m1, m2)
    decreases |m1|
  {
    if |m1| > Threshold {
      var s := |m1| / 2;
      var a, b := Split(m1), Split(m2);
      var x1, y1 := Add(a.a11, a.a22), Add(b.a11, b.a22);
      var x2, y2 := Add(a.a21, a.a22), b.a11;
      var x3, y3 := a.a11, Sub(b.a12, b.a22);
      var x4, y4 := a.a22, Sub(b.a21, b.a11);
      var x5, y5 := Add(a.a11, a.a12), b.a22;
      var x6, y6 := Sub(a.a21, a.a11), Add(b.a11, b.a12);
      var x7, y7 := Sub(a.a12, a.a22), Add(b.a21, b.a22);
      MulCorrect(x1, y1);
      MulCorrect(x2, y2);
      MulCorrect(x3, y3);
      MulCorrect(x4, y4);
      MulCorrect(x5, y5);
      MulCorrect(x6, y6);
      MulCorrect(x7, y7);
      var p := Combine(Mul(x1, y1), Mul(x2, y2), Mul(x3, y3), Mul(x4, y4), Mul(x5, y5), Mul(x6, y6), Mul(x7, y7));
      assert Mul(m1, m2) == Join(p);
      assert p == StrassenQuad(a, b);
      StrassenCombine(a, b);
      SplitProduct(m1, m2);
      JoinSplit(MatMul(m1, m2));
    }
  }

  /** Whenever some dimension above the threshold reached by halving is odd,
      mul silently returns a smaller matrix than the product. */
  lemma TruncatesOddDimension(m1: Matrix, m2: Matrix)
    requires IsSquare(m1, |m1|) && IsSquare(m2, |m1|) && !Halvable(|m1|)
    ensures |Mul(m1, m2)| < |m1|
    ensures Mul(m1, m2) != MatMul(m1, m2)
  {
    OutDimExact(|m1|);
  }

  /** The failure of multiply: the operands' shapes do not suit the engine. */
  datatype Result<T> = Ok(value: T) | DimensionError

  /** multiply as the engine is meant to behave: it rejects unequal or
      non-square operands and dimensions that are not halvable with a
      DimensionError, and otherwise returns mul's result. */
  function Multiply(m1: Matrix, m2: Matrix): (r: Result<Matrix>)
    ensures r.Ok? <==> IsSquare(m1, |m1|) && IsSquare(m2, |m1|) && Halvable(|m1|)
    ensures r.Ok? ==> r.value == MatMul(m1, m2)
  {
    if IsSquare(m1, |m1|) && IsSquare(m2, |m1|) && Halvable(|m1|) then
      MulCorrect(m1, m2);
      Ok(Mul(m1, m2))
    else
      DimensionError
  }

  /** Multiplying by the identity on either side returns the other operand. */
  lemma MultiplyByIdentity(m: Matrix)
    requires IsSquare(m, |m|) && Halvable(|m|)
    ensures Multiply(Identity(|m|), m) == Ok(m)
    ensures Multiply(m, Identity(|m|)) == Ok(m)
  {
    MatMulIdentity(m);
  }

  /** Multiplying by the zero matrix on either side returns the zero matrix of
      the operands' dimension. */
  lemma MultiplyByZero(m: Matrix)
    requires IsSquare(m, |m|) && Halvable(|m|)
    ensures Multiply(Zero(|m|), m) == Ok(Zero(|m|))
    ensures Multiply(m, Zero(|m|)) == Ok(Zero(|m|))
  {
    MatMulZero(m);
  }

  /** [[1, 2], [3, 4]] times [[5, 6], [7, 8]], below the threshold. */
  lemma WorkedExample()
    ensures Multiply([[1, 2], [3, 4]], [[5, 6], [7, 8]]) == Ok([[19, 22], [43, 50]])
  {
    var a, b: Matrix := [[1, 2], [3, 4]], [[5, 6], [7, 8]];
    assert Column(b, 0) == [5, 7];
    assert Column(b, 1) == [6, 8];
    assert Dot([1, 2], [5, 7]) == 19 by { assert [1, 2][..1] == [1]; assert [5, 7][..1] == [5]; }
    assert Dot([1, 2], [6, 8]) == 22 by { assert [1, 2][..1] == [1]; assert [6, 8][..1] == [6]; }
    assert Dot([3, 4], [5, 7]) == 43 by { assert [3, 4][..1] == [3]; assert [5, 7][..1] == [5]; }
    assert Dot([3, 4], [6, 8]) == 50 by { assert [3, 4][..1] == [3]; assert [6, 8][..1] == [6]; }
    SquareEqual(MatMul(a, b), [[19, 22], [43, 50]], 2);
  }
}

