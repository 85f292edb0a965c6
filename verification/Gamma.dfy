/** Finite-horizon propagation values of lean_rgc/action_geometry.py: the matrix a row describes, the
    truncated series Q_H = sum of G^k r, its stationary limit, and the componentwise helper. */
module Gamma {
  import opened Options
  import opened Vectors

  type Matrix = seq<Vec>

  ghost predicate Square(g: Matrix, d: nat) { |g| == d && forall i :: 0 <= i < d ==> |g[i]| == d }

  /** matrix is empty when the row carries no list there. */
  datatype GammaRow = GammaRow(matrix: seq<Vec>, diag: Vec, scalar: Option<real>)

  predicate Rectangular(m: seq<Vec>) { forall i, j :: 0 <= i < |m| && 0 <= j < |m| ==> |m[i]| == |m[j]| }

  function Entry(v: Vec, j: nat): real { if j < |v| then v[j] else 0.0 }

  function Diagonal(v: Vec): (g: Matrix)
    ensures Square(g, |v|)
  {
    seq(|v|, i requires 0 <= i < |v| => seq(|v|, j => if i == j then v[i] else 0.0))
  }

  /** The diagonal a row without a usable matrix describes: its own, cut or padded with zeros, or the scalar. */
  function RowDiagonal(row: GammaRow, d: nat): (v: Vec)
    ensures |v| == d
  {
    if row.diag != [] then seq(d, i requires 0 <= i => Entry(row.diag, i))
    else Constant(d, if row.scalar.Some? then row.scalar.value else 0.0)
  }

  function MatrixOf(row: GammaRow, d: nat): (g: Matrix)
    ensures Square(g, d)
  {
    if row.matrix != [] && Rectangular(row.matrix) then
      seq(d, i requires 0 <= i =>
        seq(d, j requires 0 <= j => if i < |row.matrix| then Entry(row.matrix[i], j) else 0.0))
    else Diagonal(RowDiagonal(row, d))
  }

  /** x is what the row's fields say about row i, column j: the given matrix when its rows have one length,
      with zeros outside it, else the given diagonal, else the scalar on the diagonal. */
  ghost predicate EntryOf(row: GammaRow, i: nat, j: nat, x: real) {
    if row.matrix != [] && forall a, b :: 0 <= a < b < |row.matrix| ==> |row.matrix[a]| == |row.matrix[b]| then
      x == if i < |row.matrix| && j < |row.matrix[i]| then row.matrix[i][j] else 0.0
    else if i != j then x == 0.0
    else if row.diag != [] then x == if i < |row.diag| then row.diag[i] else 0.0
    else x == if row.scalar.Some? then row.scalar.value else 0.0
  }

  /** The matrix of a row, entry by entry in terms of the row's fields. */
  lemma MatrixMeaning(row: GammaRow, d: nat, g: Matrix)
    requires Square(g, d)
    ensures g == MatrixOf(row, d) <==> forall i: nat, j: nat :: i < d && j < d ==> EntryOf(row, i, j, g[i][j])
  {
    forall i: nat, j: nat | i < d && j < d ensures EntryOf(row, i, j, MatrixOf(row, d)[i][j]) {
      EntryMeaning(row, d, i, j);
    }
    if forall i: nat, j: nat :: i < d && j < d ==> EntryOf(row, i, j, g[i][j]) {
      forall i: nat | i < d ensures g[i] == MatrixOf(row, d)[i] {
        forall j: nat | j < d ensures g[i][j] == MatrixOf(row, d)[i][j] {
          assert EntryOf(row, i, j, g[i][j]) && EntryOf(row, i, j, MatrixOf(row, d)[i][j]);
        }
      }
    }
  }

  lemma EntryMeaning(row: GammaRow, d: nat, i: nat, j: nat)
    requires i < d && j < d
    ensures EntryOf(row, i, j, MatrixOf(row, d)[i][j])
  {
    if row.matrix != [] && Rectangular(row.matrix) {
      assert MatrixOf(row, d)[i][j] == if i < |row.matrix| then Entry(row.matrix[i], j) else 0.0;
    } else {
      assert MatrixOf(row, d)[i][j] == if i == j then RowDiagonal(row, d)[i] else 0.0;
    }
  }

  // ----- The series -----

  function Apply(g: Matrix, x: Vec): (v: Vec)
    requires Square(g, |x|)
    ensures |v| == |x|
  {
    MatVec(g, x)
  }

  /** G^k r */
  function Pow(g: Matrix, r: Vec, k: nat): (v: Vec)
    requires Square(g, |r|)
    ensures |v| == |r|
  {
    if k == 0 then r else Apply(g, Pow(g, r, k - 1))
  }

  /** r + G r + ... + G^h r */
  function Partial(g: Matrix, r: Vec, h: nat): (v: Vec)
    requires Square(g, |r|)
    ensures |v| == |r|
  {
    if h == 0 then r else Add(Partial(g, r, h - 1), Pow(g, r, h))
  }

  lemma ApplyAdd(g: Matrix, a: Vec, b: Vec)
    requires |a| == |b| && Square(g, |a|)
    ensures Apply(g, Add(a, b)) == Add(Apply(g, a), Apply(g, b))
  {
    forall i | 0 <= i < |g| ensures Dot(g[i], Add(a, b)) == Dot(g[i], a) + Dot(g[i], b) {
      DotAdd(a, b, g[i]);
    }
  }

  lemma ApplyScale(g: Matrix, t: real, a: Vec)
    requires Square(g, |a|)
    ensures Apply(g, Scale(t, a)) == Scale(t, Apply(g, a))
  {
    forall i | 0 <= i < |g| ensures Apply(g, Scale(t, a))[i] == Scale(t, Apply(g, a))[i] {
      DotScale(t, a, g[i]);
    }
  }

  /** (I - G) Q_H == r - G^(H+1) r, with every term on its positive side. */
  lemma {:induction false} Telescopes(g: Matrix, r: Vec, h: nat)
    requires Square(g, |r|)
    ensures Add(Partial(g, r, h), Pow(g, r, h + 1)) == Add(r, Apply(g, Partial(g, r, h)))
  {
    hide Apply;
    if h == 0 {
    } else {
      Telescopes(g, r, h - 1);
      ApplyAdd(g, Partial(g, r, h - 1), Pow(g, r, h));
      var p, q, s := Partial(g, r, h - 1), Pow(g, r, h), Pow(g, r, h + 1);
      assert s == Apply(g, q);
      forall i | 0 <= i < |r| ensures Add(Partial(g, r, h), s)[i] == Add(r, Apply(g, Partial(g, r, h)))[i] {
        assert Add(p, q)[i] == Add(r, Apply(g, p))[i];
      }
    }
  }

  lemma {:induction false} PowAdd(g: Matrix, a: Vec, b: Vec, k: nat)
    requires |a| == |b| && Square(g, |a|)
    ensures Pow(g, Add(a, b), k) == Add(Pow(g, a, k), Pow(g, b, k))
  {
    if k == 0 {
    } else {
      PowAdd(g, a, b, k - 1);
      ApplyAdd(g, Pow(g, a, k - 1), Pow(g, b, k - 1));
    }
  }

  lemma {:induction false} PowShift(g: Matrix, a: Vec, k: nat)
    requires Square(g, |a|)
    ensures Pow(g, Apply(g, a), k) == Pow(g, a, k + 1)
  {
    if k == 0 {
    } else {
      PowShift(g, a, k - 1);
    }
  }

  /** q solves (I - G) q == r */
  ghost predicate Stationary(g: Matrix, r: Vec, q: Vec)
    requires Square(g, |r|)
  {
    |q| == |r| && q == Add(r, Apply(g, q))
  }

  /** The truncated series misses exactly the propagated stationary value: q - Q_H == G^(H+1) q. */
  lemma {:induction false} StationaryRemainder(g: Matrix, r: Vec, q: Vec, h: nat)
    requires Square(g, |r|) && Stationary(g, r, q)
    ensures q == Add(Partial(g, r, h), Pow(g, q, h + 1))
  {
    hide Apply;
    var gq := Apply(g, q);
    if h == 0 {
      assert Pow(g, q, 0) == q && Pow(g, q, 1) == gq;
    } else {
      StationaryRemainder(g, r, q, h - 1);
      PowAdd(g, r, gq, h);
      PowShift(g, q, h);
      var p, s, t := Partial(g, r, h - 1), Pow(g, r, h), Pow(g, q, h + 1);
      assert q == Add(p, Add(s, t));
      forall i | 0 <= i < |r| ensures q[i] == Add(Add(p, s), t)[i] {
        assert q[i] == p[i] + (s[i] + t[i]);
      }
    }
  }

  // ----- Error bounds -----

  ghost predicate Bounded(v: Vec, m: real) { m >= 0.0 && forall i :: 0 <= i < |v| ==> Abs(v[i]) <= m }

  function AbsSumTo(v: Vec, n: nat): real
    requires n <= |v|
  {
    if n == 0 then 0.0 else AbsSumTo(v, n - 1) + Abs(v[n - 1])
  }

  /** Every absolute row sum of G is at most rho. */
  ghost predicate RowsWithin(g: Matrix, rho: real) {
    rho >= 0.0 && forall i :: 0 <= i < |g| ==> AbsSumTo(g[i], |g[i]|) <= rho
  }

  /** rho^k m */
  function Decay(rho: real, k: nat, m: real): real { if k == 0 then m else rho * Decay(rho, k - 1, m) }

  lemma AbsProduct(a: real, b: real, m: real, p: real, q: real)
    requires Abs(b) <= m && p == a * b && q == Abs(a) * m
    ensures Abs(p) <= q
  {
    if a >= 0.0 {
      MulMono(a, b, m);
      MulMono(a, -b, m);
    } else {
      MulMono(-a, b, m);
      MulMono(-a, -b, m);
    }
  }

  /** AbsSumTo(a, n) * m, summand by summand. */
  function WeightTo(a: Vec, m: real, n: nat): real
    requires n <= |a|
  {
    if n == 0 then 0.0 else WeightTo(a, m, n - 1) + Abs(a[n - 1]) * m
  }

  lemma {:induction false} WeightIsProduct(a: Vec, m: real, n: nat)
    requires n <= |a|
    ensures WeightTo(a, m, n) == m * AbsSumTo(a, n)
  {
    hide Abs;
    if n == 0 {
    } else {
      WeightIsProduct(a, m, n - 1);
    }
  }

  lemma {:induction false} DotBound(a: Vec, x: Vec, m: real, n: nat)
    requires n <= |a| == |x| && Bounded(x, m)
    ensures Abs(DotTo(a, x, n)) <= WeightTo(a, m, n)
  {
    if n == 0 {
    } else {
      DotBound(a, x, m, n - 1);
      DotBoundStep(a, x, m, n);
    }
  }

  lemma DotBoundStep(a: Vec, x: Vec, m: real, n: nat)
    requires 0 < n <= |a| == |x| && Abs(x[n - 1]) <= m && Abs(DotTo(a, x, n - 1)) <= WeightTo(a, m, n - 1)
    ensures Abs(DotTo(a, x, n)) <= WeightTo(a, m, n)
  {
    var d, e, s, t := DotTo(a, x, n - 1), DotTo(a, x, n), WeightTo(a, m, n - 1), WeightTo(a, m, n);
    var p, q := a[n - 1] * x[n - 1], Abs(a[n - 1]) * m;
    assert e == d + p && t == s + q;
    hide DotTo, WeightTo;
    AbsProduct(a[n - 1], x[n - 1], m, p, q);
    AbsStep(d, p, s, q);
  }

  lemma AbsStep(d: real, e: real, s: real, t: real)
    requires Abs(d) <= s && Abs(e) <= t
    ensures Abs(d + e) <= s + t
  {
  }

  lemma BoundNonneg(x: Vec, m: real)
    requires Bounded(x, m)
    ensures m >= 0.0
  {
  }

  lemma RowBound(row: Vec, x: Vec, m: real, rho: real)
    requires |row| == |x| && Bounded(x, m) && AbsSumTo(row, |row|) <= rho
    ensures Abs(Dot(row, x)) <= rho * m
  {
    hide Abs, DotTo, AbsSumTo, WeightTo, Bounded;
    DotBound(row, x, m, |x|);
    BoundNonneg(x, m);
    WeightIsProduct(row, m, |x|);
    MulMono(m, AbsSumTo(row, |row|), rho);
  }

  lemma ApplyBound(g: Matrix, x: Vec, m: real, rho: real)
    requires Square(g, |x|) && Bounded(x, m) && RowsWithin(g, rho)
    ensures Bounded(Apply(g, x), rho * m)
  {
    hide AbsSumTo;
    MulMono(m, 0.0, rho);
    forall i | 0 <= i < |g| ensures Abs(Apply(g, x)[i]) <= rho * m {
      RowBound(g[i], x, m, rho);
    }
  }

  lemma {:induction false} PowBound(g: Matrix, x: Vec, m: real, rho: real, k: nat)
    requires Square(g, |x|) && Bounded(x, m) && RowsWithin(g, rho)
    ensures Bounded(Pow(g, x, k), Decay(rho, k, m))
  {
    hide RowsWithin, Apply, Bounded;
    if k == 0 {
    } else {
      PowBound(g, x, m, rho, k - 1);
      var d := Decay(rho, k - 1, m);
      ApplyBound(g, Pow(g, x, k - 1), d, rho);
      assert Decay(rho, k, m) == rho * d;
    }
  }

  /** Some entry attains the largest absolute value. */
  lemma {:induction false} LargestEntry(v: Vec) returns (i: nat)
    requires v != []
    ensures i < |v| && Bounded(v, Abs(v[i]))
  {
    i := 0;
    if |v| == 1 {
    } else {
      var w := v[..|v| - 1];
      var j := LargestEntry(w);
      i := if Abs(v[|v| - 1]) > Abs(w[j]) then |v| - 1 else j;
      forall k | 0 <= k < |v| ensures Abs(v[k]) <= Abs(v[i]) {
        if k < |w| {
          assert v[k] == w[k];
        }
      }
    }
  }

  lemma Contraction(x: real, m: real, rho: real)
    requires x <= m + rho * x && rho < 1.0
    ensures x <= m / (1.0 - rho)
  {
    QuotTimes(m, 1.0 - rho);
    MulCancel(1.0 - rho, x, m / (1.0 - rho));
  }

  /** When G contracts, the stationary value is bounded by r alone. */
  lemma StationaryBound(g: Matrix, r: Vec, q: Vec, m: real, rho: real)
    requires Square(g, |r|) && Stationary(g, r, q) && Bounded(r, m) && RowsWithin(g, rho) && rho < 1.0
    ensures m / (1.0 - rho) >= 0.0 && Bounded(q, m / (1.0 - rho))
  {
    Contraction(0.0, m, rho);
    if q != [] {
      var i := LargestEntry(q);
      var x := Abs(q[i]);
      ApplyBound(g, q, x, rho);
      assert q[i] == r[i] + Apply(g, q)[i];
      Contraction(x, m, rho);
    }
  }

  /** The horizon error: |q - Q_H| <= rho^(H+1) |r| / (1 - rho), entry by entry. */
  lemma HorizonError(g: Matrix, r: Vec, q: Vec, m: real, rho: real, h: nat)
    requires Square(g, |r|) && Stationary(g, r, q) && Bounded(r, m) && RowsWithin(g, rho) && rho < 1.0
    ensures Bounded(Sub(q, Partial(g, r, h)), Decay(rho, h + 1, m / (1.0 - rho)))
  {
    hide RowsWithin, Decay, Partial, Pow, Stationary;
    var c := m / (1.0 - rho);
    StationaryBound(g, r, q, m, rho);
    StationaryShape(g, r, q);
    StationaryRemainder(g, r, q, h);
    PowBound(g, q, c, rho, h + 1);
    var e := Pow(g, q, h + 1);
    forall i | 0 <= i < |r| ensures Sub(q, Partial(g, r, h))[i] == e[i] {
      assert Add(Partial(g, r, h), e)[i] == q[i];
    }
    assert Sub(q, Partial(g, r, h)) == e;
  }

  lemma StationaryShape(g: Matrix, r: Vec, q: Vec)
    requires Square(g, |r|) && Stationary(g, r, q)
    ensures |q| == |r|
  {
  }

  /** When G contracts, at most one value is stationary. */
  lemma StationaryUnique(g: Matrix, r: Vec, q: Vec, p: Vec, rho: real)
    requires Square(g, |r|) && RowsWithin(g, rho) && rho < 1.0
    requires Stationary(g, r, q) && Stationary(g, r, p)
    ensures q == p
  {
    hide RowsWithin, Stationary;
    StationaryShape(g, r, q);
    StationaryShape(g, r, p);
    var d := Sub(q, p);
    StationaryDifference(g, r, q, p);
    assert Bounded(Zeros(|r|), 0.0);
    StationaryBound(g, Zeros(|r|), d, 0.0, rho);
    ZeroOver(1.0 - rho);
    forall i | 0 <= i < |r| ensures q[i] == p[i] {
      assert Abs(d[i]) <= 0.0;
    }
  }

  lemma ZeroOver(x: real)
    requires x > 0.0
    ensures 0.0 / x == 0.0
  {
  }

  lemma StationaryDifference(g: Matrix, r: Vec, q: Vec, p: Vec)
    requires Square(g, |r|) && Stationary(g, r, q) && Stationary(g, r, p)
    ensures Stationary(g, Zeros(|r|), Sub(q, p))
  {
    var d := Sub(q, p);
    forall i | 0 <= i < |r| ensures d[i] == Add(Zeros(|r|), Apply(g, d))[i] {
      DotSub(q, p, g[i]);
      assert q[i] == Add(r, Apply(g, q))[i] && p[i] == Add(r, Apply(g, p))[i];
    }
  }

  // ----- Diagonal propagation -----

  lemma DiagonalRow(v: Vec, i: nat)
    requires i < |v|
    ensures Diagonal(v)[i] == Scale(v[i], Unit(|v|, i))
  {
    forall j | 0 <= j < |v| ensures Diagonal(v)[i][j] == Scale(v[i], Unit(|v|, i))[j] {
      assert Unit(|v|, i)[j] == if i == j then 1.0 else 0.0;
    }
  }

  lemma ApplyDiagonal(v: Vec, x: Vec, i: nat)
    requires |v| == |x| && i < |v|
    ensures Apply(Diagonal(v), x)[i] == v[i] * x[i]
  {
    hide DotTo, Unit, Scale;
    DiagonalRow(v, i);
    DotScale(v[i], Unit(|v|, i), x);
    DotUnitTo(|v|, i, x, |v|);
  }

  /** x + a x + ... + a^h x */
  function Geometric(a: real, x: real, h: nat): real {
    if h == 0 then x else Geometric(a, x, h - 1) + Decay(a, h, x)
  }

  lemma {:induction false} DiagonalPow(v: Vec, r: Vec, k: nat, i: nat)
    requires |v| == |r| && i < |v|
    ensures Pow(Diagonal(v), r, k)[i] == Decay(v[i], k, r[i])
  {
    hide Apply;
    if k == 0 {
    } else {
      DiagonalPow(v, r, k - 1, i);
      var x := Pow(Diagonal(v), r, k - 1);
      ApplyDiagonal(v, x, i);
      assert Decay(v[i], k, r[i]) == v[i] * Decay(v[i], k - 1, r[i]);
    }
  }

  /** On a diagonal the matrix series is the geometric series of each entry. */
  lemma {:induction false} DiagonalPartial(v: Vec, r: Vec, h: nat, i: nat)
    requires |v| == |r| && i < |v|
    ensures Partial(Diagonal(v), r, h)[i] == Geometric(v[i], r[i], h)
  {
    hide Pow, Decay;
    if h > 0 {
      DiagonalPartial(v, r, h - 1, i);
      DiagonalPow(v, r, h, i);
    } else {
      assert Partial(Diagonal(v), r, 0) == r;
    }
  }

  /** The diagonal the componentwise helper uses: the row's own when its length fits, else the scalar. */
  function HelperDiagonal(row: GammaRow, d: nat): (v: Vec)
    ensures |v| == d
  {
    if |row.diag| == d then row.diag else Constant(d, if row.scalar.Some? then row.scalar.value else 0.0)
  }

  /** The geometric series of each entry at its own rate. */
  function HelperValue(rate: Vec, r: Vec, h: nat): (q: Vec)
    requires |rate| == |r|
    ensures |q| == |r|
  {
    seq(|r|, i requires 0 <= i < |r| => Geometric(rate[i], r[i], h))
  }

  function ScaleMatrix(c: real, g: Matrix): (m: Matrix)
    ensures |m| == |g| && forall i :: 0 <= i < |g| ==> |m[i]| == |g[i]|
  {
    seq(|g|, i requires 0 <= i < |g| => Scale(c, g[i]))
  }

  lemma ScaleDiagonal(c: real, v: Vec)
    ensures ScaleMatrix(c, Diagonal(v)) == Diagonal(Scale(c, v))
  {
    forall i | 0 <= i < |v| ensures ScaleMatrix(c, Diagonal(v))[i] == Diagonal(Scale(c, v))[i] {
      forall j | 0 <= j < |v| ensures ScaleMatrix(c, Diagonal(v))[i][j] == Diagonal(Scale(c, v))[i][j] {
        assert Diagonal(v)[i][j] == if i == j then v[i] else 0.0;
      }
    }
  }

  /** Both routes give the same value for every response of length d and every horizon. */
  ghost predicate Agree(row: GammaRow, d: nat, c: real) {
    forall r: Vec, h: nat | |r| == d ::
      Partial(ScaleMatrix(c, MatrixOf(row, d)), r, h) == HelperValue(Scale(c, HelperDiagonal(row, d)), r, h)
  }

  lemma HelperIsDiagonal(rate: Vec, r: Vec, h: nat)
    requires |rate| == |r|
    ensures HelperValue(rate, r, h) == Partial(Diagonal(rate), r, h)
  {
    forall i | 0 <= i < |r| ensures HelperValue(rate, r, h)[i] == Partial(Diagonal(rate), r, h)[i] {
      DiagonalPartial(rate, r, h, i);
    }
  }

  lemma ApplyUnit(g: Matrix, d: nat, i: nat, j: nat)
    requires Square(g, d) && i < d && j < d
    ensures Apply(g, Unit(d, j))[i] == g[i][j]
  {
    DotComm(g[i], Unit(d, j));
    DotUnitTo(d, j, g[i], d);
  }

  /** A square matrix is determined by its series of length one. */
  lemma FirstOrder(g: Matrix, m: Matrix, d: nat)
    requires Square(g, d) && Square(m, d)
    requires forall j :: 0 <= j < d ==> Partial(g, Unit(d, j), 1) == Partial(m, Unit(d, j), 1)
    ensures g == m
  {
    hide Apply;
    forall i | 0 <= i < d ensures g[i] == m[i] {
      forall j | 0 <= j < d ensures g[i][j] == m[i][j] {
        var e := Unit(d, j);
        FirstTerms(g, e, i);
        FirstTerms(m, e, i);
        ApplyUnit(g, d, i, j);
        ApplyUnit(m, d, i, j);
      }
    }
  }

  lemma FirstTerms(g: Matrix, r: Vec, i: nat)
    requires Square(g, |r|) && i < |r|
    ensures Partial(g, r, 1)[i] == r[i] + Apply(g, r)[i]
  {
    assert Pow(g, r, 0) == r && Partial(g, r, 0) == r;
  }

  lemma CancelScale(c: real, g: Matrix, m: Matrix, d: nat)
    requires Square(g, d) && Square(m, d)
    ensures ScaleMatrix(c, g) == ScaleMatrix(c, m) <==> c == 0.0 || g == m
  {
    if ScaleMatrix(c, g) == ScaleMatrix(c, m) && c != 0.0 {
      forall i | 0 <= i < d ensures g[i] == m[i] {
        forall j | 0 <= j < d ensures g[i][j] == m[i][j] {
          assert ScaleMatrix(c, g)[i][j] == c * g[i][j] && ScaleMatrix(c, m)[i][j] == c * m[i][j];
          Cancel(c, g[i][j], m[i][j]);
        }
      }
    } else if c == 0.0 {
      forall i | 0 <= i < d ensures ScaleMatrix(c, g)[i] == ScaleMatrix(c, m)[i] {
      }
    }
  }

  lemma Cancel(c: real, x: real, y: real)
    requires c != 0.0 && c * x == c * y
    ensures x == y
  {
    assert c * (x - y) == 0.0;
  }

  lemma HelperSeries(c: real, w: Vec, r: Vec, h: nat)
    requires |w| == |r|
    ensures HelperValue(Scale(c, w), r, h) == Partial(ScaleMatrix(c, Diagonal(w)), r, h)
  {
    ScaleDiagonal(c, w);
    HelperIsDiagonal(Scale(c, w), r, h);
  }

  /** The matrix loop and the componentwise helper agree on every response and horizon exactly when the
      discount is 0 or the row's matrix is the diagonal the helper uses. */
  lemma AgreeIff(row: GammaRow, d: nat, c: real)
    ensures Agree(row, d, c) <==> c == 0.0 || MatrixOf(row, d) == Diagonal(HelperDiagonal(row, d))
  {
    hide MatrixOf, HelperDiagonal, Partial, HelperValue, Diagonal, ScaleMatrix, Scale;
    var g, w := MatrixOf(row, d), HelperDiagonal(row, d);
    var cg, cw := ScaleMatrix(c, g), ScaleMatrix(c, Diagonal(w));
    CancelScale(c, g, Diagonal(w), d);
    if cg == cw {
      forall r: Vec, h: nat | |r| == d ensures Partial(cg, r, h) == HelperValue(Scale(c, w), r, h) {
        HelperSeries(c, w, r, h);
      }
    } else if Agree(row, d, c) {
      forall j | 0 <= j < d ensures Partial(cg, Unit(d, j), 1) == Partial(cw, Unit(d, j), 1) {
        HelperSeries(c, w, Unit(d, j), 1);
        assert Partial(cg, Unit(d, j), 1) == HelperValue(Scale(c, w), Unit(d, j), 1);
      }
      FirstOrder(cg, cw, d);
    }
  }

  /** For a row without a usable matrix: when the two read the same diagonal out of the row. */
  lemma AgreeOnDiagonalIff(row: GammaRow, d: nat, c: real)
    requires row.matrix == [] || !Rectangular(row.matrix)
    ensures Agree(row, d, c) <==> c == 0.0 || RowDiagonal(row, d) == HelperDiagonal(row, d)
  {
    AgreeIff(row, d, c);
    DiagonalIsInjective(RowDiagonal(row, d), HelperDiagonal(row, d));
    hide Agree;
  }

  lemma DiagonalIsInjective(v: Vec, w: Vec)
    requires |v| == |w|
    ensures Diagonal(v) == Diagonal(w) <==> v == w
  {
    if Diagonal(v) == Diagonal(w) {
      forall i | 0 <= i < |v| ensures v[i] == w[i] {
        assert Diagonal(v)[i][i] == v[i] && Diagonal(w)[i][i] == w[i];
      }
    }
  }

  /** What the caller can check: a diagonal of the right length, none at all, or one whose padded or cut
      form happens to be the scalar throughout. */
  lemma SameDiagonalIff(row: GammaRow, d: nat)
    ensures RowDiagonal(row, d) == HelperDiagonal(row, d) <==>
      || row.diag == [] || |row.diag| == d
      || forall i {:trigger Entry(row.diag, i)} :: 0 <= i < d ==>
           Entry(row.diag, i) == if row.scalar.Some? then row.scalar.value else 0.0
  {
    var v, w := RowDiagonal(row, d), HelperDiagonal(row, d);
    if |row.diag| == d && d > 0 {
      forall i | 0 <= i < d ensures v[i] == w[i] {
      }
    } else if row.diag != [] && v == w {
      forall i | 0 <= i < d
        ensures Entry(row.diag, i) == if row.scalar.Some? then row.scalar.value else 0.0
      {
        assert v[i] == w[i];
      }
    }
  }

  // ----- The loops -----

  lemma {:induction false} DiscountPow(g: Matrix, r: Vec, c: real, k: nat)
    requires Square(g, |r|)
    ensures Pow(ScaleMatrix(c, g), r, k) == Scale(Decay(c, k, 1.0), Pow(g, r, k))
  {
    hide Apply;
    if k == 0 {
      assert Scale(1.0, r) == r;
    } else {
      DiscountPow(g, r, c, k - 1);
      var x, p := Pow(g, r, k - 1), Decay(c, k - 1, 1.0);
      ApplyScaleMatrix(g, Scale(p, x), c);
      ApplyScale(g, p, x);
      assert Decay(c, k, 1.0) == c * p;
      var y := Apply(g, x);
      forall i | 0 <= i < |r| ensures Scale(c, Scale(p, y))[i] == Scale(Decay(c, k, 1.0), y)[i] {
        TripleProduct(c, p, y[i], Decay(c, k, 1.0));
      }
    }
  }

  lemma TripleProduct(c: real, p: real, y: real, cp: real)
    requires cp == c * p
    ensures c * (p * y) == cp * y
  {
  }

  lemma ApplyScaleMatrix(g: Matrix, x: Vec, c: real)
    requires Square(g, |x|)
    ensures Apply(ScaleMatrix(c, g), x) == Scale(c, Apply(g, x))
  {
    forall i | 0 <= i < |g| ensures Apply(ScaleMatrix(c, g), x)[i] == Scale(c, Apply(g, x))[i] {
      DotScale(c, g[i], x);
    }
  }

  lemma AddZeros(r: Vec)
    ensures |Zeros(|r|)| == |r| && Add(Zeros(|r|), r) == r && Scale(1.0, r) == r
  {
  }

  /** The discounted matrix loop computes the series of the discounted matrix. */
  method FiniteHorizonValue(g: Matrix, r: Vec, horizon: int, disc: real) returns (q: Vec)
    requires Square(g, |r|)
    ensures |q| == |r| && q == Partial(ScaleMatrix(disc, g), r, if horizon < 0 then 0 else horizon)
  {
    hide Apply, Add, Scale, Zeros, ScaleMatrix;
    AddZeros(r);
    var h: nat := if horizon < 0 then 0 else horizon;
    q := Zeros(|r|);
    var v, weight := r, 1.0;
    for k := 0 to h + 1
      invariant |q| == |r| && |v| == |r|
      invariant weight == Decay(disc, k, 1.0)
      invariant v == Pow(g, r, if k <= h then k else h)
      invariant q == if k == 0 then Zeros(|r|) else Partial(ScaleMatrix(disc, g), r, k - 1)
    {
      DiscountPow(g, r, disc, k);
      q := Add(q, Scale(weight, v));
      if k < h {
        v := Apply(g, v);
      }
      weight := disc * weight;
    }
  }

  datatype Mode = Local | Finite | Resolvent

  /** The value used for retrieval. radius is the spectral radius of the row's matrix, and solution what the
      linear solver returns for it, None when it fails. */
  method EffectiveResponse(row: GammaRow, r: Vec, mode: Mode, horizon: int, margin: real, radius: real,
                           solution: Option<Vec>)
    returns (q: Vec)
    requires solution.Some? ==> Stationary(MatrixOf(row, |r|), r, solution.value)
    ensures |q| == |r|
    ensures mode.Local? ==> q == r
    ensures mode.Resolvent? && radius < 1.0 - margin && solution.Some? && r != [] ==>
              Stationary(MatrixOf(row, |r|), r, q)
    ensures mode.Finite? || (mode.Resolvent? && (radius >= 1.0 - margin || solution.None?)) ==>
              q == Partial(MatrixOf(row, |r|), r, if horizon < 0 then 0 else horizon)
  {
    if r == [] || mode.Local? {
      EmptySeries(MatrixOf(row, |r|), r, if horizon < 0 then 0 else horizon);
      return r;
    }
    var g := MatrixOf(row, |r|);
    if mode.Resolvent? && radius < 1.0 - margin {
      if solution.Some? {
        return solution.value;
      }
    }
    hide Apply, Add, Zeros, MatrixOf;
    AddZeros(r);
    var h: nat := if horizon < 0 then 0 else horizon;
    q := Zeros(|r|);
    var cur := r;
    for k := 0 to h + 1
      invariant |q| == |cur| == |r|
      invariant cur == Pow(g, r, k)
      invariant q == if k == 0 then Zeros(|r|) else Partial(g, r, k - 1)
    {
      q := Add(q, cur);
      cur := Apply(g, cur);
    }
  }

  lemma EmptySeries(g: Matrix, r: Vec, h: nat)
    requires Square(g, |r|)
    ensures r == [] ==> Partial(g, r, h) == r
  {
  }

  lemma {:induction false} DecayProduct(a: real, k: nat, x: real)
    ensures Decay(a, k, 1.0) * x == Decay(a, k, x)
  {
    if k == 0 {
    } else {
      DecayProduct(a, k - 1, x);
      var p := Decay(a, k - 1, 1.0);
      TripleProduct(a, p, x, Decay(a, k, 1.0));
    }
  }

  lemma TimesAt(v: Vec, w: Vec, i: nat, x: real, y: real)
    requires |v| == |w| && i < |v| && x == v[i] && y == w[i]
    ensures Times(v, w)[i] == x * y
  {
  }

  lemma TailTerms(rate: Vec, r: Vec, power: Vec, k: nat)
    requires |rate| == |r| == |power| && forall i :: 0 <= i < |r| ==> power[i] == Decay(rate[i], k, 1.0)
    ensures forall i :: 0 <= i < |r| ==> Times(power, r)[i] == Decay(rate[i], k, r[i])
    ensures forall i :: 0 <= i < |r| ==> Times(rate, power)[i] == Decay(rate[i], k + 1, 1.0)
  {
    hide Times;
    forall i | 0 <= i < |r|
      ensures Times(power, r)[i] == Decay(rate[i], k, r[i]) && Times(rate, power)[i] == Decay(rate[i], k + 1, 1.0)
    {
      var a, p := rate[i], Decay(rate[i], k, 1.0);
      TimesAt(power, r, i, p, r[i]);
      TimesAt(rate, power, i, a, p);
      DecayProduct(a, k, r[i]);
    }
  }

  lemma TailStart()
    ensures forall a :: Decay(a, 0, 1.0) == 1.0
  {
  }

  lemma HelperRate(row: GammaRow, disc: real, d: nat, i: nat)
    requires i < d
    ensures Scale(disc, HelperDiagonal(row, d))[i] ==
              disc * (if |row.diag| == d then row.diag[i] else if row.scalar.Some? then row.scalar.value else 0.0)
  {
    assert Scale(disc, HelperDiagonal(row, d))[i] == disc * HelperDiagonal(row, d)[i];
  }

  /** The componentwise loop. */
  method TailValueVector(r: Vec, row: GammaRow, local: bool, horizon: int, disc: real) returns (val: Vec)
    ensures |val| == |r|
    ensures local ==> val == r
    ensures !local ==> forall i :: 0 <= i < |r| ==>
      val[i] == Geometric(disc * (if |row.diag| == |r| then row.diag[i] else
                                  if row.scalar.Some? then row.scalar.value else 0.0),
                          r[i], if horizon < 0 then 0 else horizon)
    ensures !local ==>
      val == HelperValue(Scale(disc, HelperDiagonal(row, |r|)), r, if horizon < 0 then 0 else horizon)
  {
    if r == [] {
      return [];
    }
    var diag := HelperDiagonal(row, |r|);
    if local {
      return r;
    }
    hide HelperDiagonal, Scale, Times, Decay;
    var h: nat := if horizon < 0 then 0 else horizon;
    TailStart();
    var rate := Scale(disc, diag);
    val := Zeros(|r|);
    var power := Constant(|r|, 1.0);
    for k := 0 to h + 1
      invariant |val| == |r| && |power| == |r|
      invariant forall i :: 0 <= i < |r| ==> power[i] == Decay(rate[i], k, 1.0)
      invariant forall i :: 0 <= i < |r| ==>
        val[i] == if k == 0 then 0.0 else Geometric(rate[i], r[i], k - 1)
    {
      TailTerms(rate, r, power, k);
      val := Add(val, Times(power, r));
      power := Times(rate, power);
    }
    assert val == HelperValue(rate, r, h);
    forall i | 0 <= i < |r|
      ensures rate[i] == disc * (if |row.diag| == |r| then row.diag[i] else
                                 if row.scalar.Some? then row.scalar.value else 0.0)
    {
      HelperRate(row, disc, |r|, i);
    }
  }
}
