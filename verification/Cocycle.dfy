/** The composition audit of lean_rgc/arithmetic_teacher_cocycle.py: a composed transition is accepted when
    its additive charts and its affine map x -> gamma x + bias are close to those predicted from its factors. */
module Cocycle {
  import opened Options
  import opened Vectors

  datatype Geometry = Geometry(response: Sparse, carrier: Sparse, gamma: Option<real>, bias: Option<real>,
                               mvar: real, verified: real, radius: real)

  datatype Limits = Limits(threshold: real, minVerified: real, maxRadius: Option<real>)

  function AddCharts(a: Sparse, b: Sparse): Sparse { map k | k in a.Keys + b.Keys :: Get(a, k) + Get(b, k) }

  function SubCharts(a: Sparse, b: Sparse): Sparse { map k | k in a.Keys + b.Keys :: Get(a, k) - Get(b, k) }

  function Min(a: real, b: real): real { if b < a then b else a }

  function GammaPrediction(a: Geometry, b: Geometry, ab: Geometry): Option<real> {
    if a.gamma.Some? && b.gamma.Some? && ab.gamma.Some? then Some(b.gamma.value * a.gamma.value) else None
  }

  function GammaError(a: Geometry, b: Geometry, ab: Geometry): real {
    var p := GammaPrediction(a, b, ab);
    if p.Some? && ab.gamma.Some? then Abs(ab.gamma.value - p.value) else 0.0
  }

  function BiasError(a: Geometry, b: Geometry, ab: Geometry): real {
    if a.bias.Some? && b.bias.Some? && ab.bias.Some? && b.gamma.Some? then
      Abs(ab.bias.value - (b.gamma.value * a.bias.value + b.bias.value))
    else 0.0
  }

  /** The total error; norm stands for the Euclidean norm of a chart. */
  function TotalError(a: Geometry, b: Geometry, ab: Geometry, norm: Sparse -> real): real {
    norm(SubCharts(ab.response, AddCharts(a.response, b.response)))
    + norm(SubCharts(ab.carrier, AddCharts(a.carrier, b.carrier)))
    + GammaError(a, b, ab) + BiasError(a, b, ab) + 0.25 * Abs(ab.mvar - (a.mvar + b.mvar))
  }

  function TailRadius(a: Geometry, b: Geometry, ab: Geometry): real {
    var p := GammaPrediction(a, b, ab);
    Max(Abs(ab.radius), if p.Some? then Abs(p.value) else 0.0)
  }

  predicate Accepted(a: Geometry, b: Geometry, ab: Geometry, limits: Limits, norm: Sparse -> real) {
    && TotalError(a, b, ab, norm) <= limits.threshold
    && Min(Min(a.verified, b.verified), ab.verified) >= limits.minVerified
    && (limits.maxRadius.Some? ==> TailRadius(a, b, ab) <= limits.maxRadius.value)
  }

  /** c lists, key by key, how far the composed chart is from the sum of its factors' charts. */
  ghost predicate IsDefect(a: Sparse, b: Sparse, ab: Sparse, c: Sparse) {
    && (forall k :: k in c <==> k in a || k in b || k in ab)
    && forall k :: k in c ==>
         c[k] == (if k in ab then ab[k] else 0.0) - ((if k in a then a[k] else 0.0) + (if k in b then b[k] else 0.0))
  }

  lemma DefectIsUnique(a: Sparse, b: Sparse, ab: Sparse, c: Sparse)
    requires IsDefect(a, b, ab, c)
    ensures c == SubCharts(ab, AddCharts(a, b))
  {
    var d := SubCharts(ab, AddCharts(a, b));
    forall k ensures k in c <==> k in d
      ensures k in c ==> c[k] == d[k]
    {
    }
    assert c == d;
  }

  /** What an accepted composition is: its defects in the two charts, in the coefficients of the affine map and, a
      quarter of it, in the number of variables add up to at most the threshold; all three transitions are verified
      often enough; and neither its radius nor the predicted slope is too large. */
  lemma AcceptedMeaning(a: Geometry, b: Geometry, ab: Geometry, limits: Limits, norm: Sparse -> real, r: Sparse,
                        c: Sparse)
    requires IsDefect(a.response, b.response, ab.response, r) && IsDefect(a.carrier, b.carrier, ab.carrier, c)
    ensures Accepted(a, b, ab, limits, norm) <==>
      && norm(r) + norm(c)
         + (if a.gamma.Some? && b.gamma.Some? && ab.gamma.Some?
            then Abs(ab.gamma.value - b.gamma.value * a.gamma.value) else 0.0)
         + (if a.bias.Some? && b.bias.Some? && ab.bias.Some? && b.gamma.Some?
            then Abs(ab.bias.value - (b.gamma.value * a.bias.value + b.bias.value)) else 0.0)
         + 0.25 * Abs(ab.mvar - (a.mvar + b.mvar)) <= limits.threshold
      && a.verified >= limits.minVerified && b.verified >= limits.minVerified && ab.verified >= limits.minVerified
      && (limits.maxRadius.Some? ==>
            && -limits.maxRadius.value <= ab.radius <= limits.maxRadius.value
            && (a.gamma.Some? && b.gamma.Some? && ab.gamma.Some? ==>
                  -limits.maxRadius.value <= b.gamma.value * a.gamma.value <= limits.maxRadius.value))
  {
    DefectIsUnique(a.response, b.response, ab.response, r);
    DefectIsUnique(a.carrier, b.carrier, ab.carrier, c);
    hide AddCharts, SubCharts, IsDefect;
    ErrorsMeaning(a, b, ab);
    RadiusMeaning(a, b, ab, if limits.maxRadius.Some? then limits.maxRadius.value else 0.0);
    hide Abs, TailRadius, GammaError, BiasError, GammaPrediction;
  }

  lemma ErrorsMeaning(a: Geometry, b: Geometry, ab: Geometry)
    ensures GammaError(a, b, ab) ==
      if a.gamma.Some? && b.gamma.Some? && ab.gamma.Some?
      then Abs(ab.gamma.value - b.gamma.value * a.gamma.value) else 0.0
    ensures BiasError(a, b, ab) ==
      if a.bias.Some? && b.bias.Some? && ab.bias.Some? && b.gamma.Some?
      then Abs(ab.bias.value - (b.gamma.value * a.bias.value + b.bias.value)) else 0.0
  {
  }

  lemma RadiusMeaning(a: Geometry, b: Geometry, ab: Geometry, m: real)
    ensures TailRadius(a, b, ab) <= m <==>
      && -m <= ab.radius <= m
      && (a.gamma.Some? && b.gamma.Some? && ab.gamma.Some? ==> -m <= b.gamma.value * a.gamma.value <= m)
  {
    var p := GammaPrediction(a, b, ab);
    assert p.Some? <==> a.gamma.Some? && b.gamma.Some? && ab.gamma.Some?;
    assert p.Some? ==> p.value == b.gamma.value * a.gamma.value;
    hide GammaPrediction;
  }

  predicate Affine(g: Geometry) { g.gamma.Some? && g.bias.Some? }

  predicate AllAffine(gs: seq<Geometry>) { forall i :: 0 <= i < |gs| ==> Affine(gs[i]) }

  function Eval(g: Geometry, x: real): real
    requires Affine(g)
  {
    g.gamma.value * x + g.bias.value
  }

  /** max(1, |x|) */
  function Scope(x: real): (m: real)
    ensures m >= 1.0 && m >= Abs(x) && (m == 1.0 || m == Abs(x))
  {
    Max(1.0, Abs(x))
  }

  /** The product, named so that proofs can treat it as one value. */
  function Mul(a: real, b: real): real { a * b }

  lemma MulAbs(g: real, x: real, m: real)
    requires Abs(x) <= m
    ensures Abs(Mul(g, x)) <= Mul(Abs(g), m)
  {
    if g >= 0.0 {
      MulMono(g, x, m);
      MulMono(g, -x, m);
    } else {
      MulMono(-g, x, m);
      MulMono(-g, -x, m);
    }
  }

  lemma MulOrder(a: real, b: real, m: real)
    requires m >= 0.0 && a <= b
    ensures Mul(a, m) <= Mul(b, m)
  {
    MulMono(m, a, b);
  }

  lemma MulRules(a: real, b: real, m: real)
    ensures Mul(a + b, m) == Mul(a, m) + Mul(b, m)
    ensures Mul(a, m) == Mul(m, a) && Mul(a, 1.0) == a && Mul(0.0, m) == 0.0
  {
  }

  /** |g x + d| <= (|g| + |d|) m for m at least 1 and |x|. */
  lemma GapWithin(gap: real, g: real, x: real, d: real, m: real, t: real)
    requires gap == Mul(g, x) + d && Abs(g) + Abs(d) <= t && m >= 1.0 && m >= Abs(x)
    ensures Abs(gap) <= Mul(t, m)
  {
    MulAbs(g, x, m);
    MulRules(Abs(g), Abs(d), m);
    MulOrder(1.0, m, Abs(d));
    MulRules(m, 0.0, Abs(d));
    MulRules(1.0, 0.0, Abs(d));
    MulRules(Abs(d), 0.0, m);
    MulOrder(Abs(g) + Abs(d), t, m);
    hide Mul;
    assert Abs(d) <= Mul(Abs(d), m) by {
      MulRules(Abs(d), 0.0, 1.0);
    }
  }

  /** The slope and offset of the difference between the composed map and the composite of its factors. */
  function Slope(a: Geometry, b: Geometry, ab: Geometry): real
    requires Affine(a) && Affine(b) && Affine(ab)
  {
    ab.gamma.value - b.gamma.value * a.gamma.value
  }

  function Offset(a: Geometry, b: Geometry, ab: Geometry): real
    requires Affine(a) && Affine(b) && Affine(ab)
  {
    ab.bias.value - (b.gamma.value * a.bias.value + b.bias.value)
  }

  lemma AcceptedErrors(a: Geometry, b: Geometry, ab: Geometry, limits: Limits, norm: Sparse -> real)
    requires Affine(a) && Affine(b) && Affine(ab) && (forall c :: norm(c) >= 0.0)
    requires Accepted(a, b, ab, limits, norm)
    ensures Abs(Slope(a, b, ab)) + Abs(Offset(a, b, ab)) <= limits.threshold
  {
    assert GammaError(a, b, ab) == Abs(Slope(a, b, ab));
    assert BiasError(a, b, ab) == Abs(Offset(a, b, ab));
    hide GammaError, BiasError, Slope, Offset, SubCharts, AddCharts;
  }

  lemma Expand(ga: real, ba: real, gb: real, bb: real, gc: real, bc: real, x: real)
    ensures gc * x + bc - (gb * (ga * x + ba) + bb) == (gc - gb * ga) * x + (bc - (gb * ba + bb))
  {
    assert gb * (ga * x + ba) == gb * ga * x + gb * ba;
  }

  lemma Difference(a: Geometry, b: Geometry, ab: Geometry, x: real)
    requires Affine(a) && Affine(b) && Affine(ab)
    ensures Eval(ab, x) - Eval(b, Eval(a, x)) == Mul(Slope(a, b, ab), x) + Offset(a, b, ab)
  {
    Expand(a.gamma.value, a.bias.value, b.gamma.value, b.bias.value, ab.gamma.value, ab.bias.value, x);
  }

  /** An accepted composition stays within threshold * max(1, |x|) of the composed factors, everywhere. */
  lemma CompositionBound(a: Geometry, b: Geometry, ab: Geometry, limits: Limits, norm: Sparse -> real, x: real)
    requires Affine(a) && Affine(b) && Affine(ab) && (forall c :: norm(c) >= 0.0)
    requires Accepted(a, b, ab, limits, norm)
    ensures Abs(Eval(ab, x) - Eval(b, Eval(a, x))) <= Mul(limits.threshold, Scope(x))
  {
    hide Accepted, Eval, Slope, Offset, Abs, Scope, Mul;
    AcceptedErrors(a, b, ab, limits, norm);
    Difference(a, b, ab, x);
    GapWithin(Eval(ab, x) - Eval(b, Eval(a, x)), Slope(a, b, ab), x, Offset(a, b, ab), Scope(x), limits.threshold);
  }

  // ----- Chains -----

  /** factors[0], then factors[1], and so on, applied to x. */
  function Compose(factors: seq<Geometry>, x: real): real
    requires factors != [] && AllAffine(factors)
  {
    var last := factors[|factors| - 1];
    if |factors| == 1 then Eval(last, x) else Eval(last, Compose(factors[..|factors| - 1], x))
  }

  /** composed[i] is an accepted composition of composed[i-1] with factors[i], starting from factors[0]. */
  ghost predicate Chain(factors: seq<Geometry>, composed: seq<Geometry>, limits: Limits, norm: Sparse -> real) {
    && |factors| == |composed| > 0 && composed[0] == factors[0]
    && AllAffine(factors) && AllAffine(composed)
    && forall i :: 1 <= i < |factors| ==> Link(factors, composed, limits, norm, i)
  }

  ghost predicate Link(factors: seq<Geometry>, composed: seq<Geometry>, limits: Limits, norm: Sparse -> real, i: nat)
    requires 1 <= i < |factors| == |composed|
  {
    Accepted(composed[i - 1], factors[i], composed[i], limits, norm)
  }

  /** The accumulated error bound: each step adds one unit and multiplies what was there by its own slope. */
  function ChainError(factors: seq<Geometry>, unit: real): real
    requires factors != [] && AllAffine(factors)
  {
    if |factors| == 1 then 0.0
    else unit + Mul(Abs(factors[|factors| - 1].gamma.value), ChainError(factors[..|factors| - 1], unit))
  }

  lemma StepError(f: Geometry, u: real, v: real, w: real, unit: real, e: real)
    requires Affine(f) && Abs(w - Eval(f, u)) <= unit && Abs(u - v) <= e
    ensures Abs(w - Eval(f, v)) <= unit + Mul(Abs(f.gamma.value), e)
  {
    var g := f.gamma.value;
    assert Eval(f, u) - Eval(f, v) == Mul(g, u - v);
    MulAbs(g, u - v, e);
    hide Mul, Eval;
  }

  /** A left-nested chain of accepted compositions stays within the accumulated error of the true composite. */
  lemma {:induction false} ChainBound(factors: seq<Geometry>, composed: seq<Geometry>, limits: Limits,
                                      norm: Sparse -> real, x: real)
    requires Chain(factors, composed, limits, norm) && forall c :: norm(c) >= 0.0
    ensures Abs(Eval(composed[|composed| - 1], x) - Compose(factors, x))
         <= ChainError(factors, Mul(limits.threshold, Scope(x)))
  {
    hide Accepted, Eval, Mul, Scope;
    var n, unit := |factors| - 1, Mul(limits.threshold, Scope(x));
    if n > 0 {
      var fs, cs := factors[..n], composed[..n];
      forall i | 1 <= i < n ensures Link(fs, cs, limits, norm, i) {
        assert Link(factors, composed, limits, norm, i);
      }
      ChainBound(fs, cs, limits, norm, x);
      assert Link(factors, composed, limits, norm, n);
      CompositionBound(composed[n - 1], factors[n], composed[n], limits, norm, x);
      StepError(factors[n], Eval(cs[n - 1], x), Compose(fs, x), Eval(composed[n], x), unit, ChainError(fs, unit));
    } else {
      assert composed[0] == factors[0];
    }
  }

  lemma Shrinks(a: real, e: real)
    requires 0.0 <= a <= 1.0 && 0.0 <= e
    ensures 0.0 <= Mul(a, e) <= e
  {
    hide Mul;
    MulOrder(0.0, a, e);
    MulOrder(a, 1.0, e);
    MulRules(0.0, 0.0, e);
    MulRules(1.0, 0.0, e);
    MulRules(e, 0.0, 1.0);
  }

  lemma {:induction false} GentleChain(factors: seq<Geometry>, unit: real)
    requires factors != [] && AllAffine(factors) && unit >= 0.0
    requires forall i :: 1 <= i < |factors| ==> Abs(factors[i].gamma.value) <= 1.0
    ensures 0.0 <= ChainError(factors, unit) <= Mul((|factors| - 1) as real, unit)
  {
    hide Mul;
    var n := |factors| - 1;
    if n > 0 {
      GentleChain(factors[..n], unit);
      Shrinks(Abs(factors[n].gamma.value), ChainError(factors[..n], unit));
      MulRules((n - 1) as real, 1.0, unit);
      MulRules(1.0, 0.0, unit);
      MulRules(unit, 0.0, 1.0);
      assert n as real == (n - 1) as real + 1.0;
    } else {
      MulRules(0.0, 0.0, unit);
      assert n as real == 0.0;
    }
  }

  /** With later slopes of at most one the error grows linearly in the number of compositions. */
  lemma LinearAccumulation(factors: seq<Geometry>, composed: seq<Geometry>, limits: Limits, norm: Sparse -> real,
                           x: real)
    requires Chain(factors, composed, limits, norm) && (forall c :: norm(c) >= 0.0) && limits.threshold >= 0.0
    requires forall i :: 1 <= i < |factors| ==> Abs(factors[i].gamma.value) <= 1.0
    ensures Abs(Eval(composed[|composed| - 1], x) - Compose(factors, x))
         <= Mul((|factors| - 1) as real, Mul(limits.threshold, Scope(x)))
  {
    hide Eval, Accepted, Compose, Mul, Scope;
    ChainBound(factors, composed, limits, norm, x);
    MulOrder(0.0, limits.threshold, Scope(x));
    MulRules(0.0, 0.0, Scope(x));
    GentleChain(factors, Mul(limits.threshold, Scope(x)));
  }
}
