/** Projected-gradient projection of a defect onto the cone of response rows
    (lean_rgc/coker.py, project_onto_response_cone and coker_margin), over exact reals. */
module Coker {
  import opened Options
  import opened Vectors
  import opened Simplex

  /** A defect vector, the response rows that may repair it, the ridge weight and the mass cap. */
  datatype Chart = Chart(defect: Vec, responses: seq<Vec>, ridge: real, maxMass: Option<real>) {
    predicate Shaped() { forall i :: 0 <= i < |responses| ==> |responses[i]| == |defect| }
    predicate CapAllowsPoints() { maxMass.None? || maxMass.value >= 0.0 }
  }

  /** R^T j */
  function Predicted(c: Chart, j: Vec): (r: Vec)
    requires c.Shaped() && |j| == |c.responses|
    ensures |r| == |c.defect|
  {
    CombTo(c.responses, j, |j|, |c.defect|)
  }

  function Residual(c: Chart, j: Vec): (r: Vec)
    requires c.Shaped() && |j| == |c.responses|
    ensures |r| == |c.defect|
  {
    Sub(c.defect, Predicted(c, j))
  }

  /** The ridge least-squares objective |D - R^T j|^2 + ridge |j|^2. */
  ghost function Objective(c: Chart, j: Vec): real
    requires c.Shaped() && |j| == |c.responses|
  {
    NormSq(Residual(c, j)) + c.ridge * NormSq(j)
  }

  function GramRow(c: Chart, i: nat): (r: Vec)
    requires c.Shaped() && i < |c.responses|
    ensures |r| == |c.responses|
  {
    seq(|c.responses|, k requires 0 <= k < |c.responses| =>
      Dot(c.responses[i], c.responses[k]) + c.ridge * (if i == k then 1.0 else 0.0))
  }

  /** G = R R^T + ridge I */
  function Gram(c: Chart): (g: seq<Vec>)
    requires c.Shaped()
    ensures |g| == |c.responses| && forall i :: 0 <= i < |g| ==> |g[i]| == |c.responses|
  {
    seq(|c.responses|, i requires 0 <= i < |c.responses| => GramRow(c, i))
  }

  /** 2 (G j - R D) */
  function Gradient(c: Chart, j: Vec): (r: Vec)
    requires c.Shaped() && |j| == |c.responses|
    ensures |r| == |j|
  {
    Scale(2.0, Sub(MatVec(Gram(c), j), MatVec(c.responses, c.defect)))
  }

  /** j - grad / L */
  function Target(c: Chart, L: real, j: Vec): (r: Vec)
    requires c.Shaped() && |j| == |c.responses| && L != 0.0
    ensures |r| == |j|
  {
    Sub(j, Scale(1.0 / L, Gradient(c, j)))
  }

  /** One pass of the loop: a gradient step, then the projection. */
  function Step(c: Chart, L: real, j: Vec): (r: Vec)
    requires c.Shaped() && |j| == |c.responses| && L != 0.0
    ensures |r| == |j|
  {
    Project(Target(c, L, j), c.maxMass)
  }

  function Iterate(c: Chart, L: real, k: nat): (r: Vec)
    requires c.Shaped() && L != 0.0
    ensures |r| == |c.responses|
  {
    if k == 0 then Zeros(|c.responses|) else Step(c, L, Iterate(c, L, k - 1))
  }

  lemma IterateUnfold(c: Chart, L: real, k: nat)
    requires c.Shaped() && L != 0.0
    ensures k == 0 ==> Iterate(c, L, k) == Zeros(|c.responses|)
    ensures k > 0 ==> Iterate(c, L, k) == Step(c, L, Iterate(c, L, k - 1))
  {
  }

  /** What is assumed of L: twice a bound on the quadratic form of G. */
  ghost predicate StepConstant(c: Chart, L: real)
    requires c.Shaped()
  {
    && L > 0.0
    && forall s: Vec :: |s| == |c.responses| ==> Dot(s, MatVec(Gram(c), s)) <= L / 2.0 * NormSq(s)
  }

  lemma StepConstantPositive(c: Chart, L: real)
    requires c.Shaped() && StepConstant(c, L)
    ensures L > 0.0
  {
  }

  // ----- The gradient and the quadratic expansion -----

  /** R residual - ridge j, that is, minus half the gradient. */
  function Dual(c: Chart, j: Vec): (r: Vec)
    requires c.Shaped() && |j| == |c.responses|
    ensures |r| == |j|
  {
    Sub(MatVec(c.responses, Residual(c, j)), Scale(c.ridge, j))
  }

  lemma GramRowDot(c: Chart, j: Vec, i: nat)
    requires c.Shaped() && |j| == |c.responses| && i < |j|
    ensures Dot(GramRow(c, i), j) == Dot(c.responses[i], Predicted(c, j)) + c.ridge * j[i]
  {
    hide DotTo;
    var ri, n := c.responses[i], |j|;
    var m := MatVec(c.responses, ri);
    forall k | 0 <= k < n ensures GramRow(c, i)[k] == Add(m, Scale(c.ridge, Unit(n, i)))[k] {
      DotComm(ri, c.responses[k]);
    }
    assert GramRow(c, i) == Add(m, Scale(c.ridge, Unit(n, i)));
    DotAdd(m, Scale(c.ridge, Unit(n, i)), j);
    DotScale(c.ridge, Unit(n, i), j);
    DotUnitTo(n, i, j, n);
    AdjointTo(c.responses, j, ri, n);
    DotComm(j, m);
    DotComm(ri, Predicted(c, j));
  }

  lemma GradientIsDual(c: Chart, j: Vec)
    requires c.Shaped() && |j| == |c.responses|
    ensures Gradient(c, j) == Scale(-2.0, Dual(c, j))
  {
    hide DotTo;
    forall i | 0 <= i < |j| ensures Gradient(c, j)[i] == Scale(-2.0, Dual(c, j))[i] {
      GramRowDot(c, j, i);
      DotSub(c.defect, Predicted(c, j), c.responses[i]);
    }
  }

  /** s . G s, as a sum of squares. */
  ghost function Curvature(c: Chart, s: Vec): real
    requires c.Shaped() && |s| == |c.responses|
  {
    NormSq(Predicted(c, s)) + c.ridge * NormSq(s)
  }

  lemma CurvatureIsGram(c: Chart, s: Vec)
    requires c.Shaped() && |s| == |c.responses|
    ensures Curvature(c, s) == Dot(s, MatVec(Gram(c), s))
  {
    hide DotTo;
    var p := Predicted(c, s);
    var v := MatVec(c.responses, p);
    assert MatVec(Gram(c), s) == Add(v, Scale(c.ridge, s)) by {
      forall i | 0 <= i < |s| ensures MatVec(Gram(c), s)[i] == Add(v, Scale(c.ridge, s))[i] {
        GramRowDot(c, s, i);
      }
    }
    DotAdd(v, Scale(c.ridge, s), s);
    DotScale(c.ridge, s, s);
    AdjointTo(c.responses, s, p, |s|);
  }

  lemma CurvatureNonneg(c: Chart, s: Vec)
    requires c.Shaped() && |s| == |c.responses| && c.ridge >= 0.0
    ensures Curvature(c, s) >= 0.0
  {
    hide DotTo;
    NormSqNonneg(Predicted(c, s));
    NormSqNonneg(s);
    MulMono(c.ridge, 0.0, NormSq(s));
  }

  lemma ExpandScalar(ridge: real, jj: real, js: real, ss: real, total: real)
    requires total == jj + 2.0 * js + ss
    ensures ridge * total == ridge * jj + 2.0 * (ridge * js) + ridge * ss
  {
  }

  lemma ObjectiveExpansion(c: Chart, j: Vec, s: Vec)
    requires c.Shaped() && |j| == |s| == |c.responses|
    ensures Objective(c, Add(j, s)) == Objective(c, j) - 2.0 * Dot(Dual(c, j), s) + Curvature(c, s)
  {
    hide DotTo;
    var r, p := Residual(c, j), Predicted(c, s);
    CombAddTo(c.responses, j, s, |j|, |c.defect|);
    assert Residual(c, Add(j, s)) == Sub(r, p);
    NormSqSub(r, p);
    AdjointTo(c.responses, s, r, |s|);
    DotComm(r, p);
    DotComm(s, MatVec(c.responses, r));
    NormSqAdd(j, s);
    DotSub(MatVec(c.responses, r), Scale(c.ridge, j), s);
    DotScale(c.ridge, j, s);
    ExpandScalar(c.ridge, NormSq(j), Dot(j, s), NormSq(s), NormSq(Add(j, s)));
  }

  // ----- One step -----

  /** The projection inequality of a step, cleared of its division by L. */
  lemma StepVariational(c: Chart, L: real, j: Vec, p: Vec, z: Vec)
    requires c.Shaped() && |j| == |z| == |c.responses| && L > 0.0 && Feasible(z, c.maxMass)
    requires p == Step(c, L, j)
    ensures 2.0 * Dot(Dual(c, j), Sub(z, p)) <= L * Dot(Sub(p, j), Sub(z, p))
  {
    hide DotTo, Project;
    var g, w := Gradient(c, j), Dual(c, j);
    var t := 1.0 / L;
    var x, d := Sub(j, Scale(t, g)), Sub(z, p);
    ProjectVariational(x, c.maxMass, z);
    GradientIsDual(c, j);
    assert Sub(x, p) == Sub(Scale(-t, g), Sub(p, j)) by {
      forall k | 0 <= k < |j| ensures Sub(x, p)[k] == Sub(Scale(-t, g), Sub(p, j))[k] {
        assert (-t) * g[k] == -(t * g[k]);
      }
    }
    DotSub(Scale(-t, g), Sub(p, j), d);
    DotScale(-t, g, d);
    DotScale(-2.0, w, d);
    StepScalar(L, t, Dot(w, d), Dot(g, d), Dot(Sub(p, j), Sub(z, p)));
  }

  lemma StepScalar(L: real, t: real, wd: real, gd: real, sd: real)
    requires L > 0.0 && t == 1.0 / L && gd == -2.0 * wd && (-t) * gd - sd <= 0.0
    ensures 2.0 * wd <= L * sd
  {
    QuotTimes(1.0, L);
    var a := (-t) * gd;
    assert L * a == 2.0 * wd by {
      assert a == 2.0 * (t * wd);
      assert L * a == 2.0 * ((L * t) * wd);
    }
    MulMono(L, a, sd);
  }

  lemma HalfScalar(L: real, a: real, b: real)
    requires b <= L / 2.0 * a
    ensures 2.0 * b <= L * a
  {
  }

  /** The curvature of any displacement is at most half of L times its squared length. */
  lemma CurvatureBound(c: Chart, L: real, s: Vec)
    requires c.Shaped() && |s| == |c.responses| && StepConstant(c, L)
    ensures 2.0 * Curvature(c, s) <= L * NormSq(s)
  {
    hide DotTo, Curvature;
    CurvatureIsGram(c, s);
    HalfScalar(L, NormSq(s), Dot(s, MatVec(Gram(c), s)));
  }

  /** L |z - j|^2 */
  ghost function Potential(L: real, z: Vec, j: Vec): real
    requires |z| == |j|
  {
    L * NormSq(Sub(z, j))
  }

  lemma PotentialDrop(L: real, z: Vec, j: Vec, p: Vec)
    requires |z| == |j| == |p|
    ensures Potential(L, z, j) - Potential(L, z, p)
            == 2.0 * (L * Dot(Sub(p, j), Sub(z, p))) + L * NormSq(Sub(p, j))
  {
    hide DotTo;
    var s, e, d := Sub(p, j), Sub(z, j), Sub(z, p);
    assert d == Sub(e, s);
    DotSub(e, s, s);
    NormSqSub(e, s);
    DotComm(s, e);
    assert NormSq(e) - NormSq(d) == 2.0 * Dot(s, d) + NormSq(s);
    assert L * (NormSq(e) - NormSq(d)) == L * (2.0 * Dot(s, d) + NormSq(s));
  }

  /** Three-point inequality: one step p lands below any feasible z up to the decrease in distance to z. */
  lemma StepGap(c: Chart, L: real, j: Vec, p: Vec, z: Vec)
    requires c.Shaped() && |j| == |z| == |c.responses| && c.ridge >= 0.0
    requires StepConstant(c, L) && Feasible(z, c.maxMass) && p == Step(c, L, j)
    ensures 2.0 * (Objective(c, p) - Objective(c, z)) <= Potential(L, z, j) - Potential(L, z, p)
  {
    hide DotTo, Step, Objective, Curvature, Dual, Potential;
    assert p == Add(j, Sub(p, j)) && z == Add(j, Sub(z, j));
    ObjectiveExpansion(c, j, Sub(p, j));
    ObjectiveExpansion(c, j, Sub(z, j));
    CurvatureNonneg(c, Sub(z, j));
    CurvatureBound(c, L, Sub(p, j));
    StepVariational(c, L, j, p, z);
    assert Sub(z, p) == Sub(Sub(z, j), Sub(p, j));
    DotSub(Sub(z, j), Sub(p, j), Dual(c, j));
    PotentialDrop(L, z, j, p);
  }

  /** Each step of a feasible point lowers the objective by at least (L/2) |step|^2. */
  lemma StepDescent(c: Chart, L: real, j: Vec, p: Vec)
    requires c.Shaped() && |j| == |c.responses| && StepConstant(c, L) && Feasible(j, c.maxMass)
    requires p == Step(c, L, j)
    ensures 2.0 * (Objective(c, j) - Objective(c, p)) >= L * NormSq(Sub(p, j))
  {
    hide DotTo, Step, Objective, Curvature, Dual, NormSq, Potential;
    assert p == Add(j, Sub(p, j));
    ObjectiveExpansion(c, j, Sub(p, j));
    CurvatureBound(c, L, Sub(p, j));
    StepVariational(c, L, j, p, j);
    assert Sub(j, p) == Scale(-1.0, Sub(p, j));
    DotScale(-1.0, Sub(p, j), Dual(c, j));
    PotentialSelf(L, j, p);
    PotentialDrop(L, j, j, p);
  }

  lemma PotentialSelf(L: real, j: Vec, p: Vec)
    requires |j| == |p|
    ensures Potential(L, j, j) == 0.0 && Potential(L, j, p) == L * NormSq(Sub(p, j))
  {
    hide DotTo;
    assert Sub(j, j) == Zeros(|j|);
    DotZeros(Zeros(|j|));
    assert Sub(j, p) == Scale(-1.0, Sub(p, j));
    NormSqScale(-1.0, Sub(p, j));
  }

  // ----- Whole runs -----

  lemma {:induction false} IterateFeasible(c: Chart, L: real, k: nat)
    requires c.Shaped() && L != 0.0 && c.CapAllowsPoints()
    ensures Feasible(Iterate(c, L, k), c.maxMass)
  {
    if k == 0 {
      SumZeros(|c.responses|, |c.responses|);
    } else {
      hide Project;
      var j := Iterate(c, L, k - 1);
      ProjectMass(Target(c, L, j), c.maxMass);
    }
  }

  /** Squared length of the k-th step. */
  ghost function StepSq(c: Chart, L: real, k: nat): real
    requires c.Shaped() && L != 0.0 && k > 0
  {
    NormSq(Sub(Iterate(c, L, k), Iterate(c, L, k - 1)))
  }

  /** L times the total squared length of the first k steps. */
  ghost function StepWork(c: Chart, L: real, k: nat): real
    requires c.Shaped() && L != 0.0 && k > 0
  {
    L * StepSq(c, L, k)
  }

  ghost function Travelled(c: Chart, L: real, k: nat): real
    requires c.Shaped() && L != 0.0
  {
    if k == 0 then 0.0 else Travelled(c, L, k - 1) + StepWork(c, L, k)
  }

  lemma StepSqNonneg(c: Chart, L: real, k: nat)
    requires c.Shaped() && L != 0.0 && k > 0
    ensures StepSq(c, L, k) >= 0.0
  {
    hide NormSq, Iterate;
    NormSqNonneg(Sub(Iterate(c, L, k), Iterate(c, L, k - 1)));
  }

  lemma RunStepDescent(c: Chart, L: real, k: nat)
    requires c.Shaped() && StepConstant(c, L) && c.CapAllowsPoints() && k > 0
    ensures 2.0 * (Objective(c, Iterate(c, L, k - 1)) - Objective(c, Iterate(c, L, k))) >= StepWork(c, L, k)
  {
    hide Objective, NormSq, Iterate, Step, StepConstant;
    StepConstantPositive(c, L);
    IterateFeasible(c, L, k - 1);
    IterateUnfold(c, L, k);
    StepDescent(c, L, Iterate(c, L, k - 1), Iterate(c, L, k));
  }

  lemma ObjectiveAtZero(c: Chart)
    requires c.Shaped()
    ensures Objective(c, Zeros(|c.responses|)) == NormSq(c.defect)
  {
    hide DotTo;
    CombZerosTo(c.responses, |c.responses|, |c.defect|);
    assert Residual(c, Zeros(|c.responses|)) == c.defect;
    DotZeros(Zeros(|c.responses|));
  }

  lemma ObjectiveNonneg(c: Chart, j: Vec)
    requires c.Shaped() && |j| == |c.responses| && c.ridge >= 0.0
    ensures 0.0 <= NormSq(Residual(c, j)) <= Objective(c, j)
  {
    hide DotTo;
    NormSqNonneg(Residual(c, j));
    NormSqNonneg(j);
    MulMono(c.ridge, 0.0, NormSq(j));
  }

  lemma {:induction false} RunDescent(c: Chart, L: real, k: nat)
    requires c.Shaped() && StepConstant(c, L) && c.CapAllowsPoints()
    ensures 2.0 * Objective(c, Iterate(c, L, k)) + Travelled(c, L, k) <= 2.0 * NormSq(c.defect)
  {
    hide Objective, NormSq, Iterate, StepWork, StepConstant;
    StepConstantPositive(c, L);
    if k == 0 {
      IterateUnfold(c, L, k);
      ObjectiveAtZero(c);
      assert Travelled(c, L, k) == 0.0;
      assert Objective(c, Iterate(c, L, k)) == NormSq(c.defect);
    } else {
      RunDescent(c, L, k - 1);
      RunStepDescent(c, L, k);
    }
  }

  /** Descent over a whole run: with a nonnegative ridge the total squared step length times L is at
      most 2 |D|^2, and no iterate leaves a residual longer than the defect. */
  lemma RunBounds(c: Chart, L: real, k: nat)
    requires c.Shaped() && StepConstant(c, L) && c.CapAllowsPoints() && c.ridge >= 0.0
    ensures Travelled(c, L, k) <= 2.0 * NormSq(c.defect)
    ensures NormSq(Residual(c, Iterate(c, L, k))) <= NormSq(c.defect)
  {
    hide DotTo, Objective, NormSq;
    RunDescent(c, L, k);
    ObjectiveNonneg(c, Iterate(c, L, k));
    TravelledNonneg(c, L, k);
  }

  lemma {:induction false} TravelledNonneg(c: Chart, L: real, k: nat)
    requires c.Shaped() && L > 0.0
    ensures Travelled(c, L, k) >= 0.0
  {
    if k == 0 {
    } else {
      hide StepSq;
      TravelledNonneg(c, L, k - 1);
      StepSqNonneg(c, L, k);
      MulMono(L, 0.0, StepSq(c, L, k));
    }
  }

  /** 2 k times the amount by which the k-th iterate exceeds the objective at z. */
  ghost function Regret(c: Chart, L: real, k: nat, z: Vec): real
    requires c.Shaped() && L != 0.0 && |z| == |c.responses|
  {
    TwiceTimes(k, Objective(c, Iterate(c, L, k)) - Objective(c, z))
  }

  ghost function TwiceTimes(k: nat, e: real): real { (k as real) * (2.0 * e) }

  lemma RateScalar(k: nat, e0: real, e1: real, p0: real, p1: real, pz: real)
    requires e1 <= e0 && 2.0 * e1 <= p0 - p1 && TwiceTimes(k, e0) <= pz - p0
    ensures TwiceTimes(k + 1, e1) <= pz - p1
  {
    MulMono(k as real, 2.0 * e1, 2.0 * e0);
    assert ((k + 1) as real) * (2.0 * e1) == (k as real) * (2.0 * e1) + 2.0 * e1;
  }

  lemma {:induction false} RatePotential(c: Chart, L: real, k: nat, z: Vec)
    requires c.Shaped() && StepConstant(c, L) && c.CapAllowsPoints() && c.ridge >= 0.0
    requires |z| == |c.responses| && Feasible(z, c.maxMass)
    ensures Regret(c, L, k, z) <= Potential(L, z, Zeros(|z|)) - Potential(L, z, Iterate(c, L, k))
  {
    hide Objective, Potential, Iterate, StepConstant;
    StepConstantPositive(c, L);
    IterateUnfold(c, L, k);
    if k == 0 {
    } else {
      hide TwiceTimes, Step, StepSq;
      RatePotential(c, L, k - 1, z);
      IterateFeasible(c, L, k - 1);
      StepGap(c, L, Iterate(c, L, k - 1), Iterate(c, L, k), z);
      RunStepDescent(c, L, k);
      StepSqNonneg(c, L, k);
      MulMono(L, 0.0, StepSq(c, L, k));
      RateScalar(k - 1, Objective(c, Iterate(c, L, k - 1)) - Objective(c, z),
                 Objective(c, Iterate(c, L, k)) - Objective(c, z),
                 Potential(L, z, Iterate(c, L, k - 1)), Potential(L, z, Iterate(c, L, k)), Potential(L, z, Zeros(|z|)));
    }
  }

  lemma PotentialAtZero(L: real, z: Vec)
    ensures Potential(L, z, Zeros(|z|)) == L * NormSq(z)
  {
    hide DotTo;
    assert Sub(z, Zeros(|z|)) == z;
  }

  lemma PotentialNonneg(L: real, z: Vec, j: Vec)
    requires |z| == |j| && L > 0.0
    ensures Potential(L, z, j) >= 0.0
  {
    hide DotTo;
    NormSqNonneg(Sub(z, j));
    MulMono(L, 0.0, NormSq(Sub(z, j)));
  }

  /** Convergence rate: 2 k (F(j_k) - F(z)) <= L |z|^2 for every feasible z, so after k steps the
      objective exceeds its minimum by at most L |z|^2 / (2 k). */
  lemma RunRate(c: Chart, L: real, k: nat, z: Vec)
    requires c.Shaped() && StepConstant(c, L) && c.CapAllowsPoints() && c.ridge >= 0.0
    requires |z| == |c.responses| && Feasible(z, c.maxMass)
    ensures TwiceTimes(k, Objective(c, Iterate(c, L, k)) - Objective(c, z)) <= L * NormSq(z)
  {
    hide DotTo, Objective, Step, NormSq, Potential, TwiceTimes;
    RatePotential(c, L, k, z);
    PotentialAtZero(L, z);
    PotentialNonneg(L, z, Iterate(c, L, k));
  }

  // ----- What a fixed point means -----

  ghost predicate Optimal(c: Chart, j: Vec)
    requires c.Shaped() && |j| == |c.responses|
  {
    Feasible(j, c.maxMass)
    && forall z: Vec :: |z| == |j| && Feasible(z, c.maxMass) ==> Objective(c, j) <= Objective(c, z)
  }

  /** No feasible direction improves to first order. */
  ghost predicate Stationary(c: Chart, j: Vec)
    requires c.Shaped() && |j| == |c.responses|
  {
    Feasible(j, c.maxMass)
    && forall z: Vec :: |z| == |j| && Feasible(z, c.maxMass) ==> Dot(Dual(c, j), Sub(z, j)) <= 0.0
  }

  /** The Karush-Kuhn-Tucker conditions with multiplier mu for the mass cap. */
  ghost predicate Certificate(c: Chart, j: Vec, mu: real)
    requires c.Shaped() && |j| == |c.responses|
  {
    && Feasible(j, c.maxMass) && mu >= 0.0
    && (forall i :: 0 <= i < |j| ==> Dual(c, j)[i] <= mu && (j[i] > 0.0 ==> Dual(c, j)[i] == mu))
    && (c.maxMass.None? || Sum(j) < c.maxMass.value ==> mu == 0.0)
  }

  lemma TargetDirection(c: Chart, L: real, j: Vec, d: Vec)
    requires c.Shaped() && |j| == |d| == |c.responses| && L > 0.0
    ensures Dot(Sub(Target(c, L, j), j), d) <= 0.0 <==> Dot(Dual(c, j), d) <= 0.0
  {
    hide DotTo, Dual, Gradient;
    var g, w, t := Gradient(c, j), Dual(c, j), 1.0 / L;
    var x := Target(c, L, j);
    GradientIsDual(c, j);
    assert Sub(x, j) == Scale(2.0 * t, w) by {
      forall k | 0 <= k < |j| ensures Sub(x, j)[k] == Scale(2.0 * t, w)[k] {
        assert g[k] == -2.0 * w[k];
        assert x[k] == j[k] - t * g[k];
        assert t * (-2.0 * w[k]) == -((2.0 * t) * w[k]);
      }
    }
    DotScale(2.0 * t, w, d);
    QuotTimes(1.0, L);
    ProductSign(2.0 * t, Dot(w, d));
  }

  lemma FixedIffStationary(c: Chart, L: real, j: Vec)
    requires c.Shaped() && |j| == |c.responses| && L > 0.0 && c.CapAllowsPoints()
    ensures Step(c, L, j) == j <==> Stationary(c, j)
  {
    hide Dot, Project, Dual, Target;
    var x := Target(c, L, j);
    ProjectMass(x, c.maxMass);
    forall z: Vec | |z| == |j|
      ensures Dot(Sub(x, j), Sub(z, j)) <= 0.0 <==> Dot(Dual(c, j), Sub(z, j)) <= 0.0
    {
      TargetDirection(c, L, j, Sub(z, j));
    }
    if Step(c, L, j) == j {
      forall z: Vec | |z| == |j| && Feasible(z, c.maxMass) ensures Dot(Dual(c, j), Sub(z, j)) <= 0.0 {
        ProjectVariational(x, c.maxMass, z);
      }
    }
    if Stationary(c, j) { VariationalIsProject(x, c.maxMass, j); }
  }

  lemma {:induction false} BlendSumTo(j: Vec, z: Vec, t: real, n: nat)
    requires |j| == |z| && n <= |j|
    ensures SumTo(Add(j, Scale(t, Sub(z, j))), n) == SumTo(j, n) + t * (SumTo(z, n) - SumTo(j, n))
  {
    if n == 0 {
    } else {
      BlendSumTo(j, z, t, n - 1);
      assert t * (SumTo(z, n) - SumTo(j, n))
          == t * (SumTo(z, n - 1) - SumTo(j, n - 1)) + t * (z[n - 1] - j[n - 1]);
    }
  }

  lemma FractionBound(t: real, d: real, q: real)
    requires 0.0 <= t <= 1.0 && d >= 0.0 && q == t * d
    ensures 0.0 <= q <= d
  {
    MulMono(d, t, 1.0);
  }

  /** A value q that is the fraction t of the way from a to b keeps both lower bounds. */
  lemma BlendScalar(t: real, a: real, b: real, q: real, bound: real)
    requires 0.0 <= t <= 1.0 && a >= bound && b >= bound && q == t * (b - a)
    ensures a + q >= bound
  {
    if a <= b { FractionBound(t, b - a, q); } else { FractionBound(t, a - b, -q); }
  }

  lemma BlendFeasible(j: Vec, z: Vec, t: real, maxMass: Option<real>)
    requires |j| == |z| && Feasible(j, maxMass) && Feasible(z, maxMass) && 0.0 <= t <= 1.0
    ensures Feasible(Add(j, Scale(t, Sub(z, j))), maxMass)
  {
    var y := Add(j, Scale(t, Sub(z, j)));
    forall i | 0 <= i < |j| ensures y[i] >= 0.0 {
      BlendScalar(t, j[i], z[i], y[i] - j[i], 0.0);
    }
    if maxMass.Some? {
      BlendSumTo(j, z, t, |j|);
      BlendScalar(t, -Sum(j), -Sum(z), Sum(j) - Sum(y), -maxMass.value);
    }
  }

  /** A step length in (0, 1] at which the linear gain g outweighs the curvature q. */
  lemma GainingLength(g: real, q: real) returns (t: real)
    requires g > 0.0
    ensures 0.0 < t <= 1.0 && -2.0 * (t * g) + t * (t * q) < 0.0
  {
    if q <= g {
      t := 1.0;
    } else {
      t := g / q;
      QuotTimes(g, q);
      MulCancel(q, t, 1.0);
      ProductSign(q, t);
      assert t * q == g;
      ProductSign(g, t);
      assert t * (t * q) == t * g;
    }
  }

  lemma {:induction false} CurvatureScale(c: Chart, t: real, s: Vec)
    requires c.Shaped() && |s| == |c.responses|
    ensures Curvature(c, Scale(t, s)) == t * (t * Curvature(c, s))
  {
    hide DotTo;
    CombScaleTo(c.responses, t, s, |s|, |c.defect|);
    NormSqScale(t, Predicted(c, s));
    NormSqScale(t, s);
    var a, b := NormSq(Predicted(c, s)), NormSq(s);
    assert t * t * a + c.ridge * (t * t * b) == t * (t * (a + c.ridge * b));
  }

  /** A feasible point toward which the dual points is beaten by a feasible point. */
  lemma DirectionImproves(c: Chart, j: Vec, z: Vec) returns (y: Vec)
    requires c.Shaped() && |j| == |z| == |c.responses|
    requires Feasible(j, c.maxMass) && Feasible(z, c.maxMass) && Dot(Dual(c, j), Sub(z, j)) > 0.0
    ensures |y| == |j| && Feasible(y, c.maxMass) && Objective(c, y) < Objective(c, j)
  {
    hide DotTo, Objective, Curvature, Dual;
    var s := Sub(z, j);
    var t := GainingLength(Dot(Dual(c, j), s), Curvature(c, s));
    y := Add(j, Scale(t, s));
    BlendFeasible(j, z, t, c.maxMass);
    ObjectiveExpansion(c, j, Scale(t, s));
    DotScale(t, s, Dual(c, j));
    CurvatureScale(c, t, s);
  }

  lemma StationaryIffOptimal(c: Chart, j: Vec)
    requires c.Shaped() && |j| == |c.responses| && c.ridge >= 0.0
    ensures Stationary(c, j) <==> Optimal(c, j)
  {
    hide Dot, Objective, Dual, Curvature;
    if Stationary(c, j) {
      forall z: Vec | |z| == |j| && Feasible(z, c.maxMass) ensures Objective(c, j) <= Objective(c, z) {
        ObjectiveExpansion(c, j, Sub(z, j));
        assert z == Add(j, Sub(z, j));
        CurvatureNonneg(c, Sub(z, j));
      }
    }
    if Feasible(j, c.maxMass) && !Stationary(c, j) {
      var z: Vec :| |z| == |j| && Feasible(z, c.maxMass) && Dot(Dual(c, j), Sub(z, j)) > 0.0;
      var y := DirectionImproves(c, j, z);
    }
  }

  // ----- The dual certificate -----

  lemma {:induction false} DotConstTo(x: real, j: Vec, n: nat)
    requires n <= |j|
    ensures DotTo(Constant(|j|, x), j, n) == x * SumTo(j, n)
  {
    if n == 0 {
    } else {
      DotConstTo(x, j, n - 1);
    }
  }

  lemma SlackEntry(s: real, j: real, q: real)
    requires s >= 0.0 && j >= 0.0 && q == s * j
    ensures q >= 0.0
    ensures q == 0.0 <==> (j > 0.0 ==> s == 0.0)
  {
    if s > 0.0 && j > 0.0 { ProductSign(s, j); }
  }

  /** Complementary slackness: nonnegative slacks and weights have a vanishing product sum exactly
      when every positive weight has zero slack. */
  lemma {:induction false} SlackTo(s: Vec, j: Vec, n: nat)
    requires |s| == |j| && n <= |j| && AllNonneg(s) && AllNonneg(j)
    ensures DotTo(s, j, n) >= 0.0
    ensures DotTo(s, j, n) == 0.0 <==> forall i :: 0 <= i < n && j[i] > 0.0 ==> s[i] == 0.0
  {
    if n == 0 {
    } else {
      SlackTo(s, j, n - 1);
      var q := DotTo(s, j, n) - DotTo(s, j, n - 1);
      SlackEntry(s[n - 1], j[n - 1], q);
      if DotTo(s, j, n) == 0.0 {
        forall i | 0 <= i < n && j[i] > 0.0 ensures s[i] == 0.0 {
          if i == n - 1 { assert s[i] == s[n - 1] && j[i] == j[n - 1]; }
        }
      }
    }
  }

  /** With every dual entry at most mu, w . j falls short of mu times the mass by a nonnegative
      amount that vanishes exactly under complementary slackness. */
  lemma WeightedGap(w: Vec, j: Vec, mu: real)
    requires |w| == |j| && AllNonneg(j) && forall i :: 0 <= i < |w| ==> w[i] <= mu
    ensures Dot(w, j) <= mu * Sum(j)
    ensures Dot(w, j) == mu * Sum(j) <==> forall i :: 0 <= i < |j| && j[i] > 0.0 ==> w[i] == mu
  {
    hide DotTo;
    var s := Sub(Constant(|j|, mu), w);
    SlackTo(s, j, |j|);
    DotSub(Constant(|j|, mu), w, j);
    DotConstTo(mu, j, |j|);
    assert forall i :: 0 <= i < |j| ==> (s[i] == 0.0 <==> w[i] == mu);
  }

  lemma CertificateIsStationary(c: Chart, j: Vec, mu: real)
    requires c.Shaped() && |j| == |c.responses| && Certificate(c, j, mu)
    ensures Stationary(c, j)
  {
    hide Dot, Dual, Sum;
    var w := Dual(c, j);
    forall z: Vec | |z| == |j| && Feasible(z, c.maxMass) ensures Dot(w, Sub(z, j)) <= 0.0 {
      WeightedGap(w, j, mu);
      WeightedGap(w, z, mu);
      DotSub(z, j, w);
      ProductNonpos(mu, Sum(z) - Sum(j));
    }
  }

  /** The larger of 0 and the largest of the first n entries, with a position attaining it when positive. */
  function MaxOrZero(w: Vec, n: nat): (mu: real)
    requires n <= |w|
    ensures mu >= 0.0 && forall i :: 0 <= i < n ==> w[i] <= mu
    ensures mu > 0.0 ==> exists i :: 0 <= i < n && w[i] == mu
  {
    if n == 0 then 0.0
    else var rest := MaxOrZero(w, n - 1); if w[n - 1] > rest then w[n - 1] else rest
  }

  lemma {:induction false} SumUnitTo(n: nat, i: nat, k: nat)
    requires k <= n
    ensures SumTo(Unit(n, i), k) == if i < k then 1.0 else 0.0
  {
    if k == 0 {
    } else {
      SumUnitTo(n, i, k - 1);
    }
  }

  /** All the mass on one row. */
  lemma SpikeFeasible(n: nat, i: nat, m: real)
    requires i < n && m >= 0.0
    ensures Feasible(Scale(m, Unit(n, i)), Some(m))
  {
    SumUnitTo(n, i, n);
    SumScaleTo(m, Unit(n, i), n);
  }

  lemma SpikeScalar(m: real, x: real, mu: real, wz: real, wj: real)
    requires x == mu && wz == m * x && wz - wj <= 0.0
    ensures mu * m <= wj
  {
  }

  lemma SpikeBound(c: Chart, j: Vec, k: nat, mu: real)
    requires c.Shaped() && |j| == |c.responses| && Stationary(c, j) && k < |j| && Dual(c, j)[k] == mu
    ensures c.maxMass.Some? && c.maxMass.value >= 0.0 ==> mu * c.maxMass.value <= Dot(Dual(c, j), j)
    ensures c.maxMass.None? ==> mu <= 0.0
  {
    hide DotTo, Dual;
    var w, e := Dual(c, j), Unit(|j|, k);
    DotUnitTo(|j|, k, w, |j|);
    DotComm(e, w);
    if c.maxMass.None? {
      var z := Add(j, e);
      assert Sub(z, j) == e;
      assert Feasible(z, c.maxMass);
    } else if c.maxMass.value >= 0.0 {
      var z := Scale(c.maxMass.value, e);
      SpikeFeasible(|j|, k, c.maxMass.value);
      DotScale(c.maxMass.value, e, w);
      DotSub(z, j, w);
      assert Dot(w, Sub(z, j)) <= 0.0;
      SpikeScalar(c.maxMass.value, Dot(w, e), mu, Dot(w, z), Dot(w, j));
    }
  }

  lemma StationaryAgainstZero(c: Chart, j: Vec)
    requires c.Shaped() && |j| == |c.responses| && Stationary(c, j)
    ensures Dot(Dual(c, j), j) >= 0.0
  {
    hide DotTo, Dual, Sum;
    var w, o := Dual(c, j), Zeros(|j|);
    ZeroFeasible(c, j);
    DotZeros(w);
    DotSub(o, j, w);
    assert Dot(w, Sub(o, j)) <= 0.0;
  }

  lemma StationaryIsTight(c: Chart, j: Vec, mu: real)
    requires c.Shaped() && |j| == |c.responses| && Stationary(c, j)
    requires mu == MaxOrZero(Dual(c, j), |j|)
    ensures Dot(Dual(c, j), j) == mu * Sum(j)
    ensures mu > 0.0 ==> c.maxMass.Some? && Sum(j) == c.maxMass.value
  {
    hide Dot, Dual, Sum, Stationary, Feasible, MaxOrZero;
    var w := Dual(c, j);
    StationaryMass(c, j);
    WeightedGapLe(w, j, mu);
    if mu > 0.0 {
      var k :| 0 <= k < |j| && w[k] == mu;
      SpikeBound(c, j, k, mu);
      FullMass(mu, c.maxMass.value, Sum(j), Dot(w, j));
    } else {
      StationaryAgainstZero(c, j);
    }
  }

  lemma WeightedGapLe(w: Vec, j: Vec, mu: real)
    requires |w| == |j| && AllNonneg(j) && forall i :: 0 <= i < |w| ==> w[i] <= mu
    ensures Dot(w, j) <= mu * Sum(j)
  {
    WeightedGap(w, j, mu);
  }

  lemma StationaryMass(c: Chart, j: Vec)
    requires c.Shaped() && |j| == |c.responses| && Stationary(c, j)
    ensures AllNonneg(j) && Sum(j) >= 0.0
    ensures c.maxMass.Some? ==> Sum(j) <= c.maxMass.value
  {
    SumNonnegTo(j, |j|);
  }

  lemma StationaryHasCertificate(c: Chart, j: Vec)
    requires c.Shaped() && |j| == |c.responses| && Stationary(c, j)
    ensures Certificate(c, j, MaxOrZero(Dual(c, j), |j|))
  {
    hide Dot, Dual, Sum;
    var mu := MaxOrZero(Dual(c, j), |j|);
    StationaryIsTight(c, j, mu);
    WeightedGap(Dual(c, j), j, mu);
  }

  lemma ZeroFeasible(c: Chart, j: Vec)
    requires Feasible(j, c.maxMass)
    ensures Feasible(Zeros(|j|), c.maxMass)
  {
    SumZeros(|j|, |j|);
    SumNonnegTo(j, |j|);
  }

  lemma FullMass(mu: real, m: real, total: real, wj: real)
    requires mu > 0.0 && total <= m && mu * m <= wj <= mu * total
    ensures total == m && wj == mu * total
  {
    MulCancel(mu, m, total);
  }

  /** The three readings of a fixed point: the iteration stops moving at j exactly when j minimises
      the objective over the capped cone, exactly when one multiplier certifies it. */
  lemma FixedPointMeaning(c: Chart, L: real, j: Vec)
    requires c.Shaped() && |j| == |c.responses| && L > 0.0 && c.CapAllowsPoints() && c.ridge >= 0.0
    ensures Step(c, L, j) == j <==> Optimal(c, j)
    ensures Optimal(c, j) <==> exists mu :: Certificate(c, j, mu)
  {
    hide Step, Optimal, Stationary, Certificate;
    FixedIffStationary(c, L, j);
    StationaryIffOptimal(c, j);
    if Stationary(c, j) { StationaryHasCertificate(c, j); }
    forall mu | Certificate(c, j, mu) ensures Stationary(c, j) { CertificateIsStationary(c, j, mu); }
  }

  // ----- The margin of a new response row -----

  function Extend(c: Chart, r: Vec): Chart { c.(responses := c.responses + [r]) }

  /** The largest correlation of a row with the normal, 0 without rows. */
  function Support(normal: Vec, responses: seq<Vec>): real
    requires forall i :: 0 <= i < |responses| ==> |responses[i]| == |normal|
  {
    if |responses| == 0 then 0.0 else MaxEntry(MatVec(responses, normal))
  }

  /** normal . response minus the best value any existing row reaches against the normal. */
  function CokerMargin(normal: Vec, response: Vec, responses: seq<Vec>): real
    requires |response| == |normal|
    requires forall i :: 0 <= i < |responses| ==> |responses[i]| == |normal|
  {
    Dot(normal, response) - Support(normal, responses)
  }

  lemma {:induction false} CombPrefixTo(m: seq<Vec>, r: Vec, j: Vec, x: real, n: nat, d: nat)
    requires n <= |m| == |j| && |r| == d
    requires forall i :: 0 <= i < |m| ==> |m[i]| == d
    ensures CombTo(m + [r], j + [x], n, d) == CombTo(m, j, n, d)
  {
    if n == 0 {
    } else {
      CombPrefixTo(m, r, j, x, n - 1, d);
    }
  }

  lemma ExtendDual(c: Chart, j: Vec, r: Vec)
    requires c.Shaped() && |j| == |c.responses| && |r| == |c.defect|
    ensures Residual(Extend(c, r), j + [0.0]) == Residual(c, j)
    ensures Dual(Extend(c, r), j + [0.0]) == Dual(c, j) + [Dot(r, Residual(c, j))]
  {
    hide DotTo;
    var d, n := |c.defect|, |j|;
    CombPrefixTo(c.responses, r, j, 0.0, n, d);
    assert Scale(0.0, r) == Zeros(d);
    assert Predicted(Extend(c, r), j + [0.0]) == Predicted(c, j);
    var e, k, res := Extend(c, r), j + [0.0], Residual(c, j);
    forall i | 0 <= i < n + 1 ensures Dual(e, k)[i] == (Dual(c, j) + [Dot(r, res)])[i] {
      assert e.responses[i] == if i < n then c.responses[i] else r;
      assert MatVec(e.responses, res)[i] == Dot(e.responses[i], res);
      assert c.ridge * k[i] == if i < n then c.ridge * j[i] else 0.0;
    }
  }

  lemma ExtendFeasible(j: Vec, maxMass: Option<real>)
    ensures Feasible(j + [0.0], maxMass) <==> Feasible(j, maxMass)
    ensures Sum(j + [0.0]) == Sum(j)
  {
    SumPrefixTo(j + [0.0], j, |j|);
    assert Feasible(j + [0.0], maxMass) ==> forall i :: 0 <= i < |j| ==> (j + [0.0])[i] == j[i];
  }

  lemma ExtendCertificate(c: Chart, j: Vec, r: Vec, mu: real)
    requires c.Shaped() && |j| == |c.responses| && |r| == |c.defect|
    ensures Certificate(Extend(c, r), j + [0.0], mu) <==> Certificate(c, j, mu) && Dot(r, Residual(c, j)) <= mu
  {
    hide Dot, Dual, Sum, Residual;
    var e, k := Extend(c, r), j + [0.0];
    var w, v := Dual(c, j), Dual(e, k);
    ExtendDual(c, j, r);
    ExtendFeasible(j, c.maxMass);
    assert v[|j|] == Dot(r, Residual(c, j));
    assert forall i :: 0 <= i < |j| ==> v[i] == w[i] && k[i] == j[i];
  }

  lemma {:induction false} ZeroMass(j: Vec, n: nat)
    requires n <= |j| && forall i :: 0 <= i < |j| ==> j[i] == 0.0
    ensures SumTo(j, n) == 0.0
  {
    if n == 0 {
    } else {
      ZeroMass(j, n - 1);
    }
  }

  lemma MultiplierUnique(c: Chart, j: Vec, mu: real, nu: real)
    requires c.Shaped() && |j| == |c.responses| && (c.maxMass.Some? ==> c.maxMass.value > 0.0)
    requires Certificate(c, j, mu) && Certificate(c, j, nu)
    ensures mu == nu
  {
    hide Dual;
    if i :| 0 <= i < |j| && j[i] > 0.0 {
      assert Dual(c, j)[i] == mu;
    } else {
      ZeroMass(j, |j|);
    }
  }

  /** Whether a new row can lower the optimum is decided by the residual: an optimal j stays optimal
      when row r is added with weight 0 exactly when residual . r is at most the multiplier. */
  lemma NewRowHelps(c: Chart, j: Vec, mu: real, r: Vec)
    requires c.Shaped() && |j| == |c.responses| && |r| == |c.defect| && c.ridge >= 0.0
    requires (c.maxMass.Some? ==> c.maxMass.value > 0.0) && Certificate(c, j, mu)
    ensures Optimal(Extend(c, r), j + [0.0]) <==> Dot(Residual(c, j), r) <= mu
  {
    hide Optimal, Certificate, Dot, Residual;
    var e, k := Extend(c, r), j + [0.0];
    DotComm(r, Residual(c, j));
    FixedPointMeaning(e, 1.0, k);
    ExtendCertificate(c, j, r, mu);
    forall nu | Certificate(e, k, nu) ensures nu == mu {
      ExtendCertificate(c, j, r, nu);
      MultiplierUnique(c, j, mu, nu);
    }
  }

  lemma SupportAgainstMultiplier(c: Chart, j: Vec, mu: real, i: nat)
    requires c.Shaped() && |j| == |c.responses| && c.ridge >= 0.0 && Certificate(c, j, mu)
    requires i < |j| && j[i] > 0.0
    ensures Support(Residual(c, j), c.responses) >= mu
    ensures c.ridge == 0.0 ==> Support(Residual(c, j), c.responses) == mu
  {
    hide Dot, Residual;
    var v, w := MatVec(c.responses, Residual(c, j)), Dual(c, j);
    assert w[i] == v[i] - c.ridge * j[i];
    MulMono(j[i], 0.0, c.ridge);
    assert v[i] >= mu;
    if c.ridge == 0.0 {
      forall k | 0 <= k < |j| ensures v[k] <= mu { assert w[k] == v[k] - 0.0 * j[k]; }
    }
  }

  /** The extended problem has a better point than the old optimum. */
  ghost predicate Helps(c: Chart, j: Vec, r: Vec)
    requires c.Shaped() && |j| == |c.responses| && |r| == |c.defect|
  {
    !Optimal(Extend(c, r), j + [0.0])
  }

  lemma DivideBack(x: real, n: real)
    requires n != 0.0
    ensures x / n * n == x
  {
  }

  /** Some row has any given correlation with a nonzero residual. */
  lemma RowWithCorrelation(resid: Vec, x: real) returns (r: Vec)
    requires NormSq(resid) != 0.0
    ensures |r| == |resid| && Dot(resid, r) == x
  {
    hide DotTo;
    var t := x / NormSq(resid);
    r := Scale(t, resid);
    DotScale(t, resid, resid);
    DotComm(resid, r);
    DivideBack(x, NormSq(resid));
  }

  lemma ZeroResidual(resid: Vec, r: Vec)
    requires NormSq(resid) == 0.0 && |r| == |resid|
    ensures Dot(resid, r) == 0.0 && Dot(r, resid) == 0.0
  {
    forall k | 0 <= k < |resid| ensures resid[k] == 0.0 {
      if resid[k] != 0.0 {
        NormSqPositive(resid, k, |resid|);
      }
    }
    assert resid == Zeros(|resid|);
    DotZeros(r);
    DotComm(resid, r);
  }

  lemma ZeroSupport(resid: Vec, responses: seq<Vec>)
    requires NormSq(resid) == 0.0 && forall i :: 0 <= i < |responses| ==> |responses[i]| == |resid|
    ensures Support(resid, responses) == 0.0
  {
    hide DotTo, NormSq;
    forall i | 0 <= i < |responses| ensures MatVec(responses, resid)[i] == 0.0 {
      ZeroResidual(resid, responses[i]);
    }
  }

  /** A positive margin reliably means that the row helps exactly when the support is at least the
      multiplier, or the residual is zero and no margin is positive. */
  lemma MarginSufficesIff(c: Chart, j: Vec, mu: real)
    requires c.Shaped() && |j| == |c.responses| && c.ridge >= 0.0
    requires (c.maxMass.Some? ==> c.maxMass.value > 0.0) && Certificate(c, j, mu)
    ensures var resid := Residual(c, j);
      (forall r: Vec | |r| == |c.defect| :: CokerMargin(resid, r, c.responses) > 0.0 ==> Helps(c, j, r))
      <==> NormSq(resid) == 0.0 || Support(resid, c.responses) >= mu
  {
    hide Optimal, Dot, Residual, NormSq, Support, Extend;
    var resid := Residual(c, j);
    if NormSq(resid) == 0.0 || Support(resid, c.responses) >= mu {
      forall r: Vec | |r| == |c.defect| && CokerMargin(resid, r, c.responses) > 0.0 ensures Helps(c, j, r) {
        NewRowHelps(c, j, mu, r);
        if NormSq(resid) == 0.0 {
          ZeroResidual(resid, r);
          ZeroSupport(resid, c.responses);
        }
      }
    } else {
      var r := RowWithCorrelation(resid, mu);
      NewRowHelps(c, j, mu, r);
      assert CokerMargin(resid, r, c.responses) > 0.0 && !Helps(c, j, r);
    }
  }

  /** And every row that helps has a positive margin exactly when the support is at most the multiplier, or
      the residual is zero and no row helps. */
  lemma MarginNecessaryIff(c: Chart, j: Vec, mu: real)
    requires c.Shaped() && |j| == |c.responses| && c.ridge >= 0.0
    requires (c.maxMass.Some? ==> c.maxMass.value > 0.0) && Certificate(c, j, mu)
    ensures var resid := Residual(c, j);
      (forall r: Vec | |r| == |c.defect| :: Helps(c, j, r) ==> CokerMargin(resid, r, c.responses) > 0.0)
      <==> NormSq(resid) == 0.0 || Support(resid, c.responses) <= mu
  {
    hide Optimal, Dot, Residual, NormSq, Support, Extend;
    var resid := Residual(c, j);
    if NormSq(resid) == 0.0 || Support(resid, c.responses) <= mu {
      forall r: Vec | |r| == |c.defect| && Helps(c, j, r) ensures CokerMargin(resid, r, c.responses) > 0.0 {
        NewRowHelps(c, j, mu, r);
        if NormSq(resid) == 0.0 {
          ZeroResidual(resid, r);
        }
      }
    } else {
      var r := RowWithCorrelation(resid, Support(resid, c.responses));
      NewRowHelps(c, j, mu, r);
      assert CokerMargin(resid, r, c.responses) == 0.0 && Helps(c, j, r);
    }
  }

  /** At an optimum that uses some row, a row with positive margin strictly lowers the optimum; with
      no ridge the margin decides this in both directions. */
  lemma MarginDecides(c: Chart, j: Vec, mu: real, i: nat, r: Vec)
    requires c.Shaped() && |j| == |c.responses| && |r| == |c.defect| && c.ridge >= 0.0
    requires (c.maxMass.Some? ==> c.maxMass.value > 0.0) && Certificate(c, j, mu)
    requires i < |j| && j[i] > 0.0
    ensures CokerMargin(Residual(c, j), r, c.responses) > 0.0 ==> Helps(c, j, r)
    ensures c.ridge == 0.0 ==> (CokerMargin(Residual(c, j), r, c.responses) > 0.0 <==> Helps(c, j, r))
  {
    hide Optimal, Certificate, Dot, Residual, NormSq, Helps, CokerMargin;
    SupportAgainstMultiplier(c, j, mu, i);
    MarginSufficesIff(c, j, mu);
    if c.ridge == 0.0 {
      MarginNecessaryIff(c, j, mu);
    }
  }

  /** When no row carries weight a positive margin can mislead: defect 1, the row -1, cap 1, weight 0. The
      row -1/2 has margin 1/2 and does not help. */
  lemma MarginMisleads()
    ensures var c, j, r := Chart([1.0], [[-1.0]], 0.0, Some(1.0)), [0.0], [-0.5];
      c.Shaped() && Optimal(c, j) && CokerMargin(Residual(c, j), r, c.responses) == 0.5 && !Helps(c, j, r)
  {
    hide Optimal, Extend;
    var c, j, r := Chart([1.0], [[-1.0]], 0.0, Some(1.0)), [0.0], [-0.5];
    OneDot(-1.0, 1.0);
    OneDot(1.0, -0.5);
    assert CombTo(c.responses, j, 0, 1) == [0.0] && Scale(0.0, [-1.0]) == [0.0];
    assert Predicted(c, j) == [0.0];
    assert Residual(c, j) == [1.0];
    assert MatVec(c.responses, [1.0]) == [-1.0];
    assert Dual(c, j) == [-1.0];
    assert Sum(j) == SumTo(j, 0) + 0.0;
    assert Certificate(c, j, 0.0);
    FixedPointMeaning(c, 1.0, j);
    NewRowHelps(c, j, 0.0, r);
  }

  lemma OneDot(x: real, y: real)
    ensures Dot([x], [y]) == x * y
  {
    assert DotTo([x], [y], 0) == 0.0;
  }

  // ----- Where the step constant comes from -----

  lemma NormScalar(s: real, t: real, vg: real, gg: real, vv: real, ttvv: real)
    requires 0.0 <= s < t && vv >= 0.0 && gg <= s * (s * vv)
    requires ttvv == t * (t * vv) && 0.0 <= ttvv - 2.0 * (t * vg) + gg
    ensures vg <= t * vv
  {
    MulMono(vv, s, t);
    MulMono(s, s * vv, t * vv);
    MulMono(t * vv, s, t);
    assert gg <= ttvv;
    MulCancel(t, vg, t * vv);
  }

  /** Any operator-norm bound s on G makes L = 2 s + 1e-9 a valid step constant. */
  lemma StepConstantFromNorm(c: Chart, s: real)
    requires c.Shaped() && s >= 0.0
    requires forall v: Vec :: |v| == |c.responses| ==> NormSq(MatVec(Gram(c), v)) <= s * (s * NormSq(v))
    ensures StepConstant(c, 2.0 * s + 0.000000001)
  {
    hide Dot;
    var t := s + 0.0000000005;
    forall v: Vec | |v| == |c.responses|
      ensures Dot(v, MatVec(Gram(c), v)) <= (2.0 * s + 0.000000001) / 2.0 * NormSq(v)
    {
      NormBoundAt(s, t, v, MatVec(Gram(c), v));
      assert (2.0 * s + 0.000000001) / 2.0 == t;
    }
  }

  lemma NormBoundAt(s: real, t: real, v: Vec, g: Vec)
    requires |v| == |g| && 0.0 <= s < t && NormSq(g) <= s * (s * NormSq(v))
    ensures Dot(v, g) <= t * NormSq(v)
  {
    hide DotTo;
    NormSqNonneg(v);
    NormSqSub(Scale(t, v), g);
    NormSqNonneg(Sub(Scale(t, v), g));
    NormSqScale(t, v);
    DotScale(t, v, g);
    NormScalar(s, t, Dot(v, g), NormSq(g), NormSq(v), NormSq(Scale(t, v)));
  }

  ghost function FrobeniusSqTo(m: seq<Vec>, n: nat): real
    requires n <= |m|
  {
    if n == 0 then 0.0 else FrobeniusSqTo(m, n - 1) + NormSq(m[n - 1])
  }

  lemma {:induction false} FrobeniusBoundTo(m: seq<Vec>, v: Vec, n: nat)
    requires n <= |m| && forall i :: 0 <= i < |m| ==> |m[i]| == |v|
    ensures DotTo(MatVec(m, v), MatVec(m, v), n) <= FrobeniusSqTo(m, n) * NormSq(v)
  {
    if n == 0 {
    } else {
      hide Dot, NormSq;
      FrobeniusBoundTo(m, v, n - 1);
      CauchySchwarz(m[n - 1], v);
      assert MatVec(m, v)[n - 1] == Dot(m[n - 1], v);
      FrobeniusScalar(FrobeniusSqTo(m, n - 1), NormSq(m[n - 1]), NormSq(v));
    }
  }

  lemma FrobeniusScalar(f: real, a: real, vv: real)
    ensures (f + a) * vv == f * vv + a * vv
  {
  }

  /** The fallback norm: any s with s^2 at least the sum of squared entries of G qualifies. */
  lemma StepConstantFromFrobenius(c: Chart, s: real)
    requires c.Shaped() && s >= 0.0 && s * s >= FrobeniusSqTo(Gram(c), |c.responses|)
    ensures StepConstant(c, 2.0 * s + 0.000000001)
  {
    forall v: Vec | |v| == |c.responses| ensures NormSq(MatVec(Gram(c), v)) <= s * (s * NormSq(v)) {
      hide DotTo;
      FrobeniusBoundTo(Gram(c), v, |c.responses|);
      NormSqNonneg(v);
      MulMono(NormSq(v), FrobeniusSqTo(Gram(c), |c.responses|), s * s);
    }
    StepConstantFromNorm(c, s);
  }

  // ----- The loop -----

  /** The stopping test |new_j - j| <= tol (1 + |j|), on squared norms. */
  predicate SmallStep(stepSq: real, normSq: real, tol: real) {
    var e := stepSq - tol * tol * (1.0 + normSq);
    tol >= 0.0 && (e <= 0.0 || e * e <= 4.0 * tol * tol * tol * tol * normSq)
  }

  lemma ProductOrder(x: real, x': real, y: real, y': real, xx: real, yy: real)
    requires x >= 0.0 && y >= 0.0 && x' == x && y' == y && xx == x * x' && yy == y * y'
    ensures x <= y <==> xx <= yy
  {
    if x <= y { MulMono(x, x', y); MulMono(y, x, y'); }
    if y < x { MulMono(y, y', x); MulStrict(x, y, x'); }
  }

  lemma SquareOrder(x: real, y: real, xx: real, yy: real)
    requires x >= 0.0 && y >= 0.0 && xx == x * x && yy == y * y
    ensures x <= y <==> xx <= yy
  {
    ProductOrder(x, x, y, y, xx, yy);
  }

  lemma SmallStepScalar(s: real, n: real, t: real, e: real, y: real, ee: real, yy: real, u: real)
    requires s >= 0.0 && n >= 0.0 && t >= 0.0
    requires u == t * (1.0 + n) && e == s * s - t * t * (1.0 + n * n) && y == 2.0 * (t * t) * n
    requires ee == e * e && yy == y * y
    ensures s <= u <==> e <= 0.0 || ee <= yy
  {
    MulMono(t, 0.0, 1.0 + n);
    MulMono(t, 0.0, t);
    MulMono(2.0 * (t * t), 0.0, n);
    var ss, uu := s * s, u * u;
    assert uu == t * t * (1.0 + n * n) + y by {
      assert u * u == (t * t) * ((1.0 + n) * (1.0 + n));
      assert (1.0 + n) * (1.0 + n) == 1.0 + n * n + 2.0 * n;
      assert (t * t) * (1.0 + n * n + 2.0 * n) == t * t * (1.0 + n * n) + y;
    }
    SquareOrder(s, u, ss, uu);
    assert s <= u <==> e <= y;
    if e > 0.0 { SquareOrder(e, y, ee, yy); }
  }

  /** The test on squared norms is the test on the norms themselves. */
  lemma SmallStepMeaning(step: real, norm: real, tol: real)
    requires step >= 0.0 && norm >= 0.0
    ensures SmallStep(step * step, norm * norm, tol) <==> step <= tol * (1.0 + norm)
  {
    if tol < 0.0 {
      ProductSign(1.0 + norm, tol);
    } else {
      var e, y := step * step - tol * tol * (1.0 + norm * norm), 2.0 * (tol * tol) * norm;
      assert y * y == 4.0 * tol * tol * tol * tol * (norm * norm);
      SmallStepScalar(step, norm, tol, e, y, e * e, y * y, tol * (1.0 + norm));
    }
  }

  /** The numerical library: vector norms, the largest singular value of a matrix (None when it cannot be
      computed), and the Frobenius norm. */
  datatype Numerics = Numerics(norm: Vec -> real, spectral: seq<Vec> -> Option<real>, frobenius: seq<Vec> -> real)

  predicate SquareRoot(x: real, xx: real) { x >= 0.0 && x * x == xx }

  ghost predicate IsNorm(norm: Vec -> real) { forall v :: SquareRoot(norm(v), NormSq(v)) }

  /** s bounds how much g stretches a vector. */
  ghost predicate Stretches(g: seq<Vec>, s: real) {
    s >= 0.0 && forall v: Vec :: Fits(g, v) ==> NormSq(MatVec(g, v)) <= s * (s * NormSq(v))
  }

  ghost predicate Fits(g: seq<Vec>, v: Vec) { |v| == |g| && forall i :: 0 <= i < |g| ==> |g[i]| == |v| }

  /** What is assumed of the library. */
  ghost predicate Exact(num: Numerics) {
    && IsNorm(num.norm)
    && (forall g :: num.spectral(g).Some? ==> Stretches(g, num.spectral(g).value))
    && (forall g :: SquareRoot(num.frobenius(g), FrobeniusSqTo(g, |g|)))
  }

  /** L: the spectral norm, or the Frobenius norm when that fails. */
  function StepSize(num: Numerics, g: seq<Vec>): real {
    2.0 * (if num.spectral(g).Some? then num.spectral(g).value else num.frobenius(g)) + 0.000000001
  }

  lemma StretchesIsConstant(c: Chart, s: real)
    requires c.Shaped() && Stretches(Gram(c), s)
    ensures StepConstant(c, 2.0 * s + 0.000000001)
  {
    hide StepConstant, NormSq;
    forall v: Vec | |v| == |c.responses| ensures NormSq(MatVec(Gram(c), v)) <= s * (s * NormSq(v)) {
      assert Fits(Gram(c), v);
    }
    StepConstantFromNorm(c, s);
  }

  lemma ExactAt(num: Numerics, g: seq<Vec>)
    requires Exact(num)
    ensures num.spectral(g).Some? ==> Stretches(g, num.spectral(g).value)
    ensures SquareRoot(num.frobenius(g), FrobeniusSqTo(g, |g|))
  {
    hide Stretches, FrobeniusSqTo, SquareRoot;
  }

  lemma RootIsConstant(c: Chart, s: real)
    requires c.Shaped() && SquareRoot(s, FrobeniusSqTo(Gram(c), |Gram(c)|))
    ensures StepConstant(c, 2.0 * s + 0.000000001)
  {
    hide StepConstant, FrobeniusSqTo, Gram;
    StepConstantFromFrobenius(c, s);
  }

  /** The step size the program computes is a valid step constant. */
  lemma StepSizeIsConstant(num: Numerics, c: Chart)
    requires c.Shaped() && Exact(num)
    ensures StepConstant(c, StepSize(num, Gram(c)))
  {
    hide StepConstant, Stretches, FrobeniusSqTo, Exact, Gram, SquareRoot;
    ExactAt(num, Gram(c));
    if num.spectral(Gram(c)).Some? {
      StretchesIsConstant(c, num.spectral(Gram(c)).value);
    } else {
      RootIsConstant(c, num.frobenius(Gram(c)));
    }
  }

  datatype Report = Report(
    defectNorm: real, projectionNorm: real, residualNorm: real, relativeResidual: real, activeCount: nat,
    weights: Vec, residual: Vec, projection: Vec, normal: Vec, supportValue: real)

  datatype Outcome = Projected(report: Report) | NotTwoDimensional | DimensionMismatch

  function CountAbove(v: Vec, bar: real, n: nat): (k: nat)
    requires n <= |v|
    ensures k <= n
  {
    if n == 0 then 0 else CountAbove(v, bar, n - 1) + (if v[n - 1] > bar then 1 else 0)
  }

  /** The division guards against a zero defect. */
  function Relative(residual: real, defect: real): real
    requires defect >= 0.0
  {
    residual / (defect + 0.000000001)
  }

  /** The report on weights j: every other field is determined by them. */
  function ReportOn(norm: Vec -> real, c: Chart, j: Vec): Report
    requires c.Shaped() && |j| == |c.responses| && norm(c.defect) >= 0.0
  {
    var resid := Residual(c, j);
    Report(norm(c.defect), norm(Predicted(c, j)), norm(resid), Relative(norm(resid), norm(c.defect)),
           CountAbove(j, 0.00000001, |j|), j, resid, Predicted(c, j), resid, Support(resid, c.responses))
  }

  lemma NormOrder(norm: Vec -> real, a: Vec, b: Vec)
    requires IsNorm(norm)
    ensures norm(a) <= norm(b) <==> NormSq(a) <= NormSq(b)
    ensures NormSq(a) == 0.0 ==> norm(a) == 0.0
  {
    hide NormSq, SquareRoot;
    RootOrder(norm(a), norm(b), NormSq(a), NormSq(b));
    RootOfZero(norm(a), NormSq(a));
  }

  lemma RootOrder(x: real, y: real, xx: real, yy: real)
    requires SquareRoot(x, xx) && SquareRoot(y, yy)
    ensures x <= y <==> xx <= yy
  {
    SquareOrder(x, y, xx, yy);
  }

  lemma RootOfZero(x: real, xx: real)
    requires SquareRoot(x, xx)
    ensures x >= 0.0 && (xx == 0.0 ==> x == 0.0)
  {
    SquareOrder(x, 0.0, xx, 0.0);
  }

  lemma RelativeBelowOne(residual: real, defect: real)
    requires 0.0 <= residual <= defect
    ensures 0.0 <= Relative(residual, defect) < 1.0
  {
  }

  /** Whenever the loop stops, the reported weights are in the capped cone and the residual is never longer
      than the defect. */
  lemma ReportIsSound(num: Numerics, c: Chart, k: nat)
    requires c.Shaped() && Exact(num) && c.CapAllowsPoints() && c.ridge >= 0.0
    ensures StepSize(num, Gram(c)) > 0.0
    ensures var r := ReportOn(num.norm, c, Iterate(c, StepSize(num, Gram(c)), k));
      && Feasible(r.weights, c.maxMass) && r.residualNorm <= r.defectNorm && 0.0 <= r.relativeResidual < 1.0
  {
    hide NormSq, Stretches, FrobeniusSqTo, Iterate, Residual, Relative, MaxEntry, CountAbove;
    var L := StepSize(num, Gram(c));
    StepSizeIsConstant(num, c);
    RunBounds(c, L, k);
    IterateFeasible(c, L, k);
    var resid := Residual(c, Iterate(c, L, k));
    NormOrder(num.norm, resid, c.defect);
    RelativeBelowOne(num.norm(resid), num.norm(c.defect));
  }

  /** The run reported by the loop stopped after k steps: at the iteration limit, or at the first step
      that is small relative to the point it left. */
  ghost predicate StoppedAfter(c: Chart, L: real, tol: real, maxIter: int, k: nat)
    requires c.Shaped() && L != 0.0
  {
    && k <= (if maxIter > 0 then maxIter else 0)
    && (k == maxIter || maxIter <= 0 || (k > 0 && Small(c, L, tol, k)))
    && (forall i: nat :: 0 < i < k ==> !Small(c, L, tol, i))
  }

  ghost predicate Small(c: Chart, L: real, tol: real, k: nat)
    requires c.Shaped() && L != 0.0 && k > 0
  {
    SmallStep(NormSq(Sub(Iterate(c, L, k), Iterate(c, L, k - 1))), NormSq(Iterate(c, L, k - 1)), tol)
  }

  /** The loop's test computes with norms. */
  lemma SmallIsNormTest(norm: Vec -> real, c: Chart, L: real, tol: real, k: nat)
    requires c.Shaped() && L != 0.0 && k > 0 && IsNorm(norm)
    ensures Small(c, L, tol, k) <==>
      norm(Sub(Iterate(c, L, k), Iterate(c, L, k - 1))) <= tol * (1.0 + norm(Iterate(c, L, k - 1)))
  {
    hide SmallStep, Iterate, NormSq, Sub, SquareRoot;
    var p, d := Iterate(c, L, k - 1), Sub(Iterate(c, L, k), Iterate(c, L, k - 1));
    SmallStepRoots(norm(d), norm(p), NormSq(d), NormSq(p), tol);
  }

  lemma SmallStepRoots(step: real, norm: real, stepSq: real, normSq: real, tol: real)
    requires SquareRoot(step, stepSq) && SquareRoot(norm, normSq)
    ensures SmallStep(stepSq, normSq, tol) <==> step <= tol * (1.0 + norm)
  {
    hide SmallStep;
    SmallStepMeaning(step, norm, tol);
  }

  lemma StepSizePositive(num: Numerics, g: seq<Vec>)
    requires Exact(num)
    ensures StepSize(num, g) > 0.0
  {
    if num.spectral(g).Some? {
      assert Stretches(g, num.spectral(g).value);
    }
  }

  /** Without rows the residual is the defect. */
  lemma EmptyReport(norm: Vec -> real, c: Chart)
    requires c.Shaped() && c.responses == [] && IsNorm(norm)
    ensures ReportOn(norm, c, []) == Report(norm(c.defect), 0.0, norm(c.defect),
                                            Relative(norm(c.defect), norm(c.defect)),
                                            0, [], c.defect, Zeros(|c.defect|), c.defect, 0.0)
  {
    hide Relative;
    assert Predicted(c, []) == Zeros(|c.defect|);
    assert Residual(c, []) == c.defect;
    DotZeros(Zeros(|c.defect|));
    NormOrder(norm, Zeros(|c.defect|), Zeros(|c.defect|));
  }

  /** Entry i of every row. */
  function ColumnOf(rows: seq<Vec>, i: nat): (v: Vec)
    requires forall k :: 0 <= k < |rows| ==> i < |rows[k]|
    ensures |v| == |rows|
  {
    seq(|rows|, k requires 0 <= k < |rows| => rows[k][i])
  }

  lemma {:induction false} CombIsDot(m: seq<Vec>, j: Vec, n: nat, d: nat, i: nat)
    requires n <= |m| == |j| && i < d && forall k :: 0 <= k < |m| ==> |m[k]| == d
    ensures CombTo(m, j, n, d)[i] == DotTo(j, ColumnOf(m, i), n)
  {
    CombStep(m, j, n, d);
    if n == 0 {
    } else {
      CombIsDot(m, j, n - 1, d, i);
      var y, x := j[n - 1], m[n - 1][i];
      ScaleAt(y, m[n - 1], i, x);
      DotStep(j, ColumnOf(m, i), n, y, x);
      hide CombTo, DotTo, Scale;
    }
  }

  function Above(v: Vec, bar: real, n: nat): set<nat>
    requires n <= |v|
  {
    set i: nat | i < n && v[i] > bar
  }

  lemma {:induction false} CountAboveIsSize(v: Vec, bar: real, n: nat)
    requires n <= |v|
    ensures CountAbove(v, bar, n) == |Above(v, bar, n)|
  {
    if n == 0 {
    } else {
      CountAboveIsSize(v, bar, n - 1);
      assert Above(v, bar, n) == Above(v, bar, n - 1) + if v[n - 1] > bar then {n - 1} else {};
    }
  }

  /** What each field of a report means, in terms of the inputs and of its weights. */
  ghost predicate Reports(norm: Vec -> real, defect: Vec, rows: seq<Vec>, r: Report) {
    && |r.weights| == |rows| && |r.projection| == |r.residual| == |defect|
    && (forall k :: 0 <= k < |rows| ==> |rows[k]| == |defect|)
    && (forall i :: 0 <= i < |defect| ==> r.projection[i] == Dot(r.weights, ColumnOf(rows, i)))
    && (forall i :: 0 <= i < |defect| ==> r.residual[i] + r.projection[i] == defect[i])
    && r.normal == r.residual
    && r.defectNorm == norm(defect) && r.projectionNorm == norm(r.projection) && r.residualNorm == norm(r.residual)
    && r.relativeResidual * (r.defectNorm + 0.000000001) == r.residualNorm
    && r.activeCount == |set i: nat | i < |r.weights| && r.weights[i] > 0.00000001|
    && (forall k :: 0 <= k < |rows| ==> Dot(rows[k], r.residual) <= r.supportValue)
    && (if rows == [] then r.supportValue == 0.0
        else exists k :: 0 <= k < |rows| && Dot(rows[k], r.residual) == r.supportValue)
  }

  lemma RelativeMeaning(residual: real, defect: real)
    requires defect >= 0.0
    ensures Relative(residual, defect) * (defect + 0.000000001) == residual
  {
  }

  lemma SupportMeaning(normal: Vec, responses: seq<Vec>)
    requires forall i :: 0 <= i < |responses| ==> |responses[i]| == |normal|
    ensures forall k :: 0 <= k < |responses| ==> Dot(responses[k], normal) <= Support(normal, responses)
    ensures if responses == [] then Support(normal, responses) == 0.0
            else exists k :: 0 <= k < |responses| && Dot(responses[k], normal) == Support(normal, responses)
  {
    hide DotTo;
    var v := MatVec(responses, normal);
    assert forall k :: 0 <= k < |responses| ==> v[k] == Dot(responses[k], normal);
    if responses != [] {
      var k :| 0 <= k < |v| && v[k] == MaxEntry(v);
    }
  }

  lemma ReportMeaning(norm: Vec -> real, c: Chart, j: Vec)
    requires c.Shaped() && |j| == |c.responses| && IsNorm(norm)
    ensures norm(c.defect) >= 0.0 && Reports(norm, c.defect, c.responses, ReportOn(norm, c, j))
  {
    hide DotTo, NormSq, CombTo, Support, Relative, CountAbove, ColumnOf;
    NormOrder(norm, c.defect, c.defect);
    var resid := Residual(c, j);
    forall i | 0 <= i < |c.defect| ensures Predicted(c, j)[i] == Dot(j, ColumnOf(c.responses, i)) {
      CombIsDot(c.responses, j, |j|, |c.defect|, i);
    }
    SupportMeaning(resid, c.responses);
    RelativeMeaning(norm(resid), norm(c.defect));
    CountAboveIsSize(j, 0.00000001, |j|);
    assert Above(j, 0.00000001, |j|) == set i: nat | i < |j| && j[i] > 0.00000001;
  }

  method ProjectOntoResponseCone(defect: Vec, rows: seq<Vec>, cols: nat, ridge: real,
                                 maxMass: Option<real>, maxIter: int, tol: real, num: Numerics)
    returns (r: Outcome)
    requires Exact(num)
    ensures r.NotTwoDimensional? <==> exists i :: 0 <= i < |rows| && |rows[i]| != cols
    ensures r.DimensionMismatch? <==> !r.NotTwoDimensional? && cols != |defect|
    ensures r.Projected? ==>
              var c := Chart(defect, rows, ridge, maxMass);
              && c.Shaped()
              && if rows == [] then r.report == ReportOn(num.norm, c, []) && r.report.residual == defect
                 else
                   var L := StepSize(num, Gram(c));
                   L > 0.0 && exists k: nat ::
                     StoppedAfter(c, L, tol, maxIter, k) && r.report == ReportOn(num.norm, c, Iterate(c, L, k))
    ensures r.Projected? ==> Reports(num.norm, defect, rows, r.report)
    ensures r.Projected? && (maxMass.Some? ==> maxMass.value >= 0.0) && ridge >= 0.0 ==>
              Feasible(r.report.weights, maxMass) && r.report.residualNorm <= r.report.defectNorm
  {
    hide SmallStep, Step, Iterate, Exact, Small, StepSize, Gram, NormSq, Residual, Predicted, Reports;
    if i :| 0 <= i < |rows| && |rows[i]| != cols { return NotTwoDimensional; }
    if cols != |defect| { return DimensionMismatch; }
    var c := Chart(defect, rows, ridge, maxMass);
    ExactNorm(num);
    if |rows| == 0 {
      EmptyReport(num.norm, c);
      ReportMeaning(num.norm, c, []);
      if c.CapAllowsPoints() { FeasibleEmpty(maxMass); }
      var whole := num.norm(defect);
      return Projected(Report(whole, 0.0, whole, Relative(whole, whole), 0, [], defect, Zeros(|defect|), defect, 0.0));
    }
    var L := StepSize(num, Gram(c));
    StepSizePositive(num, Gram(c));
    var j := Zeros(|rows|);
    var k := 0;
    assert j == Iterate(c, L, 0) by { IterateUnfold(c, L, 0); }
    while k < maxIter
      invariant 0 <= k && (k <= maxIter || k == 0)
      invariant |j| == |rows| && j == Iterate(c, L, k)
      invariant forall i: nat :: 0 < i <= k ==> !Small(c, L, tol, i)
    {
      var newJ := Step(c, L, j);
      var small := num.norm(Sub(newJ, j)) <= tol * (1.0 + num.norm(j));
      IterateUnfold(c, L, k + 1);
      SmallIsNormTest(num.norm, c, L, tol, k + 1);
      j, k := newJ, k + 1;
      if small { break; }
    }
    assert StoppedAfter(c, L, tol, maxIter, k);
    if c.CapAllowsPoints() && ridge >= 0.0 {
      ReportIsSound(num, c, k);
    }
    ReportMeaning(num.norm, c, j);
    return Projected(ReportOn(num.norm, c, j));
  }

  lemma ExactNorm(num: Numerics)
    requires Exact(num)
    ensures IsNorm(num.norm)
  {
  }

  lemma FeasibleEmpty(maxMass: Option<real>)
    requires maxMass.Some? ==> maxMass.value >= 0.0
    ensures Feasible([], maxMass)
  {
  }
}
