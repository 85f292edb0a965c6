/** Finite real vectors and the few matrix operations the numeric modules share.
    Sums run over a prefix length, so cumulative sums need no slicing. */
module Vectors {
  type Vec = seq<real>

  /** A vector by coordinate name; absent coordinates are zero. */
  type Sparse = map<string, real>

  function Get(m: Sparse, k: string): real { if k in m then m[k] else 0.0 }

  function SumTo(v: Vec, n: nat): real
    requires n <= |v|
  {
    if n == 0 then 0.0 else SumTo(v, n - 1) + v[n - 1]
  }

  function Sum(v: Vec): real { SumTo(v, |v|) }

  function DotTo(a: Vec, b: Vec, n: nat): real
    requires n <= |a| && n <= |b|
  {
    if n == 0 then 0.0 else DotTo(a, b, n - 1) + a[n - 1] * b[n - 1]
  }

  function Dot(a: Vec, b: Vec): real
    requires |a| == |b|
  {
    DotTo(a, b, |a|)
  }

  function NormSq(a: Vec): real { Dot(a, a) }

  function Zeros(n: nat): Vec { seq(n, i => 0.0) }

  function Constant(n: nat, x: real): (r: Vec)
    ensures |r| == n
  {
    seq(n, i => x)
  }

  function Abs(x: real): real { if x < 0.0 then -x else x }

  function MaxEntry(v: Vec): (m: real)
    requires |v| > 0
    ensures m in v && forall i :: 0 <= i < |v| ==> v[i] <= m
  {
    var last := v[|v| - 1];
    if |v| == 1 then last
    else var rest := MaxEntry(v[..|v| - 1]); if last > rest then last else rest
  }

  function Add(a: Vec, b: Vec): (r: Vec)
    requires |a| == |b|
    ensures |r| == |a|
  {
    seq(|a|, i requires 0 <= i < |a| => a[i] + b[i])
  }

  function Sub(a: Vec, b: Vec): (r: Vec)
    requires |a| == |b|
    ensures |r| == |a|
  {
    seq(|a|, i requires 0 <= i < |a| => a[i] - b[i])
  }

  function Scale(c: real, a: Vec): (r: Vec)
    ensures |r| == |a|
  {
    seq(|a|, i requires 0 <= i < |a| => c * a[i])
  }

  /** The entrywise product. */
  function Times(v: Vec, w: Vec): (r: Vec)
    requires |v| == |w|
    ensures |r| == |v|
  {
    seq(|v|, i requires 0 <= i < |v| => v[i] * w[i])
  }

  ghost predicate AllNonneg(v: Vec) { forall i :: 0 <= i < |v| ==> v[i] >= 0.0 }

  function Unit(n: nat, i: nat): (r: Vec)
    ensures |r| == n
  {
    seq(n, k => if i == k then 1.0 else 0.0)
  }

  lemma {:induction false} DotUnitTo(n: nat, i: nat, a: Vec, k: nat)
    requires k <= n == |a|
    ensures DotTo(Unit(n, i), a, k) == if i < k then a[i] else 0.0
  {
    if k == 0 {
    } else {
      DotUnitTo(n, i, a, k - 1);
      if i == k - 1 { assert a[i] == a[k - 1]; }
    }
  }

  /** One more product, its factors given by value. */
  lemma DotStep(a: Vec, b: Vec, n: nat, x: real, y: real)
    requires 0 < n <= |a| && n <= |b| && x == a[n - 1] && y == b[n - 1]
    ensures DotTo(a, b, n) == DotTo(a, b, n - 1) + x * y
  {
  }

  // ----- Bilinearity -----

  lemma {:induction false} DotCommTo(a: Vec, b: Vec, n: nat)
    requires n <= |a| && n <= |b|
    ensures DotTo(a, b, n) == DotTo(b, a, n)
  {
    if n == 0 {
    } else {
      DotCommTo(a, b, n - 1);
    }
  }

  lemma {:induction false} DotAddTo(a: Vec, b: Vec, c: Vec, n: nat)
    requires |a| == |b| == |c| && n <= |a|
    ensures DotTo(Add(a, b), c, n) == DotTo(a, c, n) + DotTo(b, c, n)
  {
    if n == 0 {
    } else {
      DotAddTo(a, b, c, n - 1);
    }
  }

  lemma {:induction false} DotSubTo(a: Vec, b: Vec, c: Vec, n: nat)
    requires |a| == |b| == |c| && n <= |a|
    ensures DotTo(Sub(a, b), c, n) == DotTo(a, c, n) - DotTo(b, c, n)
  {
    if n == 0 {
    } else {
      DotSubTo(a, b, c, n - 1);
    }
  }

  lemma {:induction false} DotScaleTo(t: real, a: Vec, c: Vec, n: nat)
    requires |a| == |c| && n <= |a|
    ensures DotTo(Scale(t, a), c, n) == t * DotTo(a, c, n)
  {
    if n == 0 {
    } else {
      DotScaleTo(t, a, c, n - 1);
    }
  }

  lemma DotComm(a: Vec, b: Vec)
    requires |a| == |b|
    ensures Dot(a, b) == Dot(b, a)
  {
    DotCommTo(a, b, |a|);
  }

  lemma DotSub(a: Vec, b: Vec, c: Vec)
    requires |a| == |b| == |c|
    ensures Dot(Sub(a, b), c) == Dot(a, c) - Dot(b, c)
    ensures Dot(c, Sub(a, b)) == Dot(c, a) - Dot(c, b)
  {
    DotSubTo(a, b, c, |a|);
    DotComm(c, Sub(a, b)); DotComm(c, a); DotComm(c, b);
  }

  lemma DotAdd(a: Vec, b: Vec, c: Vec)
    requires |a| == |b| == |c|
    ensures Dot(Add(a, b), c) == Dot(a, c) + Dot(b, c)
    ensures Dot(c, Add(a, b)) == Dot(c, a) + Dot(c, b)
  {
    DotAddTo(a, b, c, |a|);
    DotComm(c, Add(a, b)); DotComm(c, a); DotComm(c, b);
  }

  lemma DotScale(t: real, a: Vec, c: Vec)
    requires |a| == |c|
    ensures Dot(Scale(t, a), c) == t * Dot(a, c)
    ensures Dot(c, Scale(t, a)) == t * Dot(c, a)
  {
    DotScaleTo(t, a, c, |a|);
    DotComm(c, Scale(t, a)); DotComm(c, a);
  }

  lemma NormSqSub(a: Vec, b: Vec)
    requires |a| == |b|
    ensures NormSq(Sub(a, b)) == NormSq(a) - 2.0 * Dot(a, b) + NormSq(b)
  {
    DotSub(a, b, Sub(a, b)); DotSub(a, b, a); DotSub(a, b, b); DotComm(a, b);
  }

  lemma NormSqAdd(a: Vec, b: Vec)
    requires |a| == |b|
    ensures NormSq(Add(a, b)) == NormSq(a) + 2.0 * Dot(a, b) + NormSq(b)
  {
    DotAdd(a, b, Add(a, b)); DotAdd(a, b, a); DotAdd(a, b, b); DotComm(a, b);
  }

  lemma NormSqScale(t: real, a: Vec)
    ensures NormSq(Scale(t, a)) == t * t * NormSq(a)
  {
    DotScale(t, a, Scale(t, a)); DotScale(t, a, a);
  }

  lemma ProductSign(b: real, t: real)
    requires b > 0.0
    ensures t < 0.0 ==> b * t < 0.0
    ensures t > 0.0 ==> b * t > 0.0
  {
  }

  lemma MulMono(c: real, a: real, b: real)
    requires c >= 0.0 && a <= b
    ensures c * a <= c * b
  {
    assert c * (b - a) >= 0.0;
  }

  lemma MulStrict(c: real, a: real, b: real)
    requires c > 0.0 && a < b
    ensures c * a < c * b
  {
    ProductSign(c, b - a);
    assert c * (b - a) == c * b - c * a;
  }

  lemma MulCancel(c: real, a: real, b: real)
    requires c > 0.0
    ensures c * a <= c * b ==> a <= b
  {
    if a > b { MulStrict(c, b, a); }
  }

  lemma QuotTimes(b: real, k: real)
    requires k > 0.0
    ensures k * (b / k) == b
  {
  }

  /** A product of equal factors; the product is passed as a value of its own because the
      solver does not relate the sign of a literal square to the square itself. */
  lemma SquareSign(x: real, y: real, q: real)
    requires x == y && q == x * y
    ensures q >= 0.0
    ensures x != 0.0 ==> q > 0.0
  {
    if x > 0.0 { ProductSign(x, y); }
    if x < 0.0 { ProductSign(-x, y); assert x * y == -((-x) * y); }
  }

  lemma NormSqStep(a: Vec, n: nat)
    requires 0 < n <= |a|
    ensures DotTo(a, a, n) >= DotTo(a, a, n - 1)
    ensures a[n - 1] != 0.0 ==> DotTo(a, a, n) > DotTo(a, a, n - 1)
  {
    var q := DotTo(a, a, n) - DotTo(a, a, n - 1);
    SquareSign(a[n - 1], a[n - 1], q);
  }

  lemma {:induction false} NormSqTo(a: Vec, n: nat)
    requires n <= |a|
    ensures DotTo(a, a, n) >= 0.0
  {
    if n == 0 {
    } else {
      NormSqTo(a, n - 1);
      NormSqStep(a, n);
    }
  }

  /** One nonzero entry makes the squared norm positive. */
  lemma {:induction false} NormSqPositive(a: Vec, i: nat, n: nat)
    requires i < n <= |a| && a[i] != 0.0
    ensures DotTo(a, a, n) > 0.0
  {
    NormSqTo(a, n - 1);
    NormSqStep(a, n);
    if i == n - 1 {
      assert a[i] == a[n - 1];
    } else {
      NormSqPositive(a, i, n - 1);
    }
  }

  lemma NormSqNonneg(a: Vec)
    ensures NormSq(a) >= 0.0
  {
    NormSqTo(a, |a|);
  }

  lemma ZeroNormIsZero(a: Vec)
    ensures NormSq(a) <= 0.0 ==> a == Zeros(|a|)
  {
    forall i | 0 <= i < |a| && a[i] != 0.0 ensures NormSq(a) > 0.0 {
      NormSqPositive(a, i, |a|);
    }
  }

  lemma {:induction false} DotZerosTo(a: Vec, n: nat)
    requires n <= |a|
    ensures DotTo(Zeros(|a|), a, n) == 0.0
  {
    if n == 0 {
    } else {
      DotZerosTo(a, n - 1);
    }
  }

  lemma DotZeros(a: Vec)
    ensures Dot(Zeros(|a|), a) == 0.0 && Dot(a, Zeros(|a|)) == 0.0
  {
    DotZerosTo(a, |a|); DotComm(a, Zeros(|a|));
  }

  lemma {:induction false} SumZeros(n: nat, k: nat)
    requires k <= n
    ensures SumTo(Zeros(n), k) == 0.0
  {
    if k == 0 {
    } else {
      SumZeros(n, k - 1);
    }
  }

  lemma {:induction false} SumSubTo(v: Vec, w: Vec, n: nat)
    requires |v| == |w| && n <= |v|
    ensures SumTo(Sub(v, w), n) == SumTo(v, n) - SumTo(w, n)
  {
    if n == 0 {
    } else {
      SumSubTo(v, w, n - 1);
    }
  }

  lemma {:induction false} SumScaleTo(t: real, v: Vec, n: nat)
    requires n <= |v|
    ensures SumTo(Scale(t, v), n) == t * SumTo(v, n)
  {
    if n == 0 {
    } else {
      SumScaleTo(t, v, n - 1);
    }
  }

  lemma {:induction false} SumNonnegTo(v: Vec, n: nat)
    requires n <= |v| && AllNonneg(v)
    ensures SumTo(v, n) >= 0.0
    ensures forall i :: 0 <= i < n ==> v[i] <= SumTo(v, n)
  {
    if n == 0 {
    } else {
      SumNonnegTo(v, n - 1);
    }
  }

  lemma {:induction false} SumPrefixTo(v: Vec, w: Vec, n: nat)
    requires n <= |v| && n <= |w| && forall i :: 0 <= i < n ==> v[i] == w[i]
    ensures SumTo(v, n) == SumTo(w, n)
  {
    if n == 0 {
    } else {
      SumPrefixTo(v, w, n - 1);
    }
  }

  lemma {:induction false} SumCons(x: real, v: Vec, n: nat)
    requires n <= |v|
    ensures SumTo([x] + v, n + 1) == x + SumTo(v, n)
  {
    if n == 0 {
    } else {
      SumCons(x, v, n - 1);
    }
  }

  /** (a.b)^2 <= |a|^2 |b|^2 */
  lemma CauchySchwarz(a: Vec, b: Vec)
    requires |a| == |b|
    ensures Dot(a, b) * Dot(a, b) <= NormSq(a) * NormSq(b)
  {
    hide DotTo;
    var bb, ab, aa := NormSq(b), Dot(a, b), NormSq(a);
    NormSqNonneg(b);
    if bb == 0.0 {
      ZeroNormIsZero(b);
      DotZeros(a);
    } else {
      var r := Sub(Scale(bb, a), Scale(ab, b));
      NormSqNonneg(r);
      NormSqSub(Scale(bb, a), Scale(ab, b));
      NormSqScale(bb, a); NormSqScale(ab, b);
      DotScale(bb, a, Scale(ab, b)); DotScale(ab, b, a);
      DotComm(a, b);
      assert NormSq(r) == bb * bb * aa - 2.0 * (bb * (ab * ab)) + ab * ab * bb;
      assert NormSq(r) == bb * (bb * aa - ab * ab);
      ProductSign(bb, bb * aa - ab * ab);
    }
  }

  // ----- Matrices as sequences of rows -----

  function MatVec(m: seq<Vec>, x: Vec): (r: Vec)
    requires forall i :: 0 <= i < |m| ==> |m[i]| == |x|
    ensures |r| == |m|
  {
    seq(|m|, i requires 0 <= i < |m| => Dot(m[i], x))
  }

  /** The first n rows of m combined with weights j: the transpose of m applied to j. */
  function CombTo(m: seq<Vec>, j: Vec, n: nat, d: nat): (r: Vec)
    requires n <= |m| && n <= |j|
    requires forall i :: 0 <= i < |m| ==> |m[i]| == d
    ensures |r| == d
  {
    if n == 0 then Zeros(d) else Add(CombTo(m, j, n - 1, d), Scale(j[n - 1], m[n - 1]))
  }

  /** (m^T j) . y == j . (m y) */
  lemma {:induction false} AdjointTo(m: seq<Vec>, j: Vec, y: Vec, n: nat)
    requires n <= |m| == |j|
    requires forall i :: 0 <= i < |m| ==> |m[i]| == |y|
    ensures Dot(CombTo(m, j, n, |y|), y) == DotTo(j, MatVec(m, y), n)
  {
    if n == 0 {
      DotZeros(y);
    } else {
      AdjointTo(m, j, y, n - 1);
      DotAdd(CombTo(m, j, n - 1, |y|), Scale(j[n - 1], m[n - 1]), y);
      DotScale(j[n - 1], m[n - 1], y);
    }
  }

  lemma CombStep(m: seq<Vec>, j: Vec, n: nat, d: nat)
    requires n <= |m| && n <= |j| && forall i :: 0 <= i < |m| ==> |m[i]| == d
    ensures CombTo(m, j, n, d) ==
      if n == 0 then Zeros(d) else Add(CombTo(m, j, n - 1, d), Scale(j[n - 1], m[n - 1]))
  {
  }

  lemma ScaleAt(t: real, v: Vec, c: nat, x: real)
    requires c < |v| && x == v[c]
    ensures Scale(t, v)[c] == t * x
  {
  }

  lemma Distribute(a: real, b: real, ab: real, x: real)
    requires ab == a + b
    ensures ab * x == a * x + b * x
  {
  }

  lemma CombAddEntry(y: real, z: real, yz: real, row: Vec, c: nat)
    requires c < |row| && yz == y + z
    ensures Scale(yz, row)[c] == Scale(y, row)[c] + Scale(z, row)[c]
  {
    hide Scale;
    var x := row[c];
    ScaleAt(y, row, c, x);
    ScaleAt(z, row, c, x);
    ScaleAt(yz, row, c, x);
    Distribute(y, z, yz, x);
  }

  /** One more multiple of a row on top of two combinations. */
  lemma AddMultiples(a: Vec, b: Vec, y: real, z: real, yz: real, row: Vec)
    requires |a| == |b| == |row| && yz == y + z
    ensures Add(Add(a, b), Scale(yz, row)) == Add(Add(a, Scale(y, row)), Add(b, Scale(z, row)))
  {
    hide Scale;
    var p, q := Add(Add(a, b), Scale(yz, row)), Add(Add(a, Scale(y, row)), Add(b, Scale(z, row)));
    forall c | 0 <= c < |a| ensures p[c] == q[c] {
      CombAddEntry(y, z, yz, row, c);
    }
  }

  lemma AddEmpty(d: nat)
    ensures Add(Zeros(d), Zeros(d)) == Zeros(d)
  {
  }

  lemma {:induction false} CombAddTo(m: seq<Vec>, j: Vec, s: Vec, n: nat, d: nat)
    requires n <= |m| == |j| == |s|
    requires forall i :: 0 <= i < |m| ==> |m[i]| == d
    ensures CombTo(m, Add(j, s), n, d) == Add(CombTo(m, j, n, d), CombTo(m, s, n, d))
  {
    hide CombTo, Scale, Zeros;
    CombStep(m, j, n, d);
    CombStep(m, s, n, d);
    CombStep(m, Add(j, s), n, d);
    if n == 0 {
      AddEmpty(d);
    } else {
      CombAddTo(m, j, s, n - 1, d);
      AddMultiples(CombTo(m, j, n - 1, d), CombTo(m, s, n - 1, d), j[n - 1], s[n - 1], Add(j, s)[n - 1], m[n - 1]);
    }
  }

  lemma ScaleEntry(t: real, j: real, tj: real, x: real, p: real, q: real, a: real, b: real)
    requires tj == t * j && p == j * x && q == tj * x && b == a + p
    ensures t * b == t * a + q
  {
    assert q == t * p;
  }

  lemma ScaleMultiple(t: real, a: Vec, y: real, ty: real, row: Vec)
    requires |a| == |row| && ty == t * y
    ensures Scale(t, Add(a, Scale(y, row))) == Add(Scale(t, a), Scale(ty, row))
  {
    hide Scale;
    var b := Add(a, Scale(y, row));
    forall c | 0 <= c < |a| ensures Scale(t, b)[c] == Add(Scale(t, a), Scale(ty, row))[c] {
      CombScaleEntry(t, y, row, a, b, ty, c);
    }
  }

  lemma ScaleEmpty(t: real, d: nat)
    ensures Scale(t, Zeros(d)) == Zeros(d)
  {
  }

  lemma {:induction false} CombScaleTo(m: seq<Vec>, t: real, j: Vec, n: nat, d: nat)
    requires n <= |m| == |j|
    requires forall i :: 0 <= i < |m| ==> |m[i]| == d
    ensures CombTo(m, Scale(t, j), n, d) == Scale(t, CombTo(m, j, n, d))
  {
    hide CombTo, Scale, Zeros;
    CombStep(m, j, n, d);
    CombStep(m, Scale(t, j), n, d);
    if n == 0 {
      ScaleEmpty(t, d);
    } else {
      CombScaleTo(m, t, j, n - 1, d);
      ScaleAt(t, j, n - 1, j[n - 1]);
      ScaleMultiple(t, CombTo(m, j, n - 1, d), j[n - 1], Scale(t, j)[n - 1], m[n - 1]);
    }
  }

  lemma CombScaleEntry(t: real, y: real, row: Vec, a: Vec, b: Vec, ty: real, c: nat)
    requires c < |row| == |a| == |b| && b[c] == a[c] + Scale(y, row)[c] && ty == t * y
    ensures Scale(t, b)[c] == Scale(t, a)[c] + Scale(ty, row)[c]
  {
    hide Scale;
    var x, p, q, u, w := row[c], Scale(y, row)[c], Scale(ty, row)[c], a[c], b[c];
    ScaleAt(y, row, c, x);
    ScaleAt(ty, row, c, x);
    ScaleAt(t, a, c, u);
    ScaleAt(t, b, c, w);
    ScaleEntry(t, y, ty, x, p, q, u, w);
  }

  lemma {:induction false} CombZerosTo(m: seq<Vec>, n: nat, d: nat)
    requires n <= |m|
    requires forall i :: 0 <= i < |m| ==> |m[i]| == d
    ensures CombTo(m, Zeros(|m|), n, d) == Zeros(d)
  {
    if n == 0 {
    } else {
      CombZerosTo(m, n - 1, d);
    }
  }
}
