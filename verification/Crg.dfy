/** Mixtures of repair atoms (lean_rgc/crg_optimizer.py) and the gap left when a mixture is hardened into
    single tactics (lean_rgc/crg_hardening.py). */
module Crg {
  import opened Options
  import opened Vectors
  import Sorting
  import Sums

  /** costs and the problem's limits and penalties share one order: cost, audit, source and ghost risk,
      hardening cost. */
  datatype Atom = Atom(id: string, response: Sparse, costs: Vec, hasTactic: bool)

  datatype Problem = Problem(normal: Sparse, limits: seq<Option<real>>, penalties: Vec)

  const N_COSTS: nat := 5

  ghost predicate WellFormed(p: Problem, atoms: seq<Atom>) {
    |p.limits| == N_COSTS && |p.penalties| == N_COSTS && forall a :: a in atoms ==> |a.costs| == N_COSTS
  }

  /** A missing limit is no limit. */
  predicate WithinBudget(p: Problem, costs: Vec)
    requires |p.limits| == |costs| == N_COSTS
  {
    forall j :: 0 <= j < N_COSTS ==> p.limits[j].Some? ==> costs[j] <= p.limits[j].value
  }

  // ----- Sparse inner products -----

  function Products(n: Sparse, r: Sparse): string -> real { k => Get(n, k) * Get(r, k) }

  /** The program iterates over whichever map is smaller. */
  ghost function DotSparse(n: Sparse, r: Sparse): real {
    if |n| > |r| then Sums.SumOver(r.Keys, Products(r, n)) else Sums.SumOver(n.Keys, Products(n, r))
  }

  /** The choice does not matter: only common keys contribute. */
  lemma DotIsInner(n: Sparse, r: Sparse)
    ensures DotSparse(n, r) == Sums.SumOver(n.Keys * r.Keys, Products(n, r))
    ensures DotSparse(n, r) == Sums.SumOver(n.Keys, Products(n, r))
  {
    Sums.SumSupport(n.Keys * r.Keys, n.Keys, Products(n, r));
    Sums.SumSupport(n.Keys * r.Keys, r.Keys, Products(r, n));
    Sums.SumCong(n.Keys * r.Keys, Products(n, r), Products(r, n));
  }

  /** One more weighted response on top of a relaxed one. */
  function Blend(m: Sparse, w: real, r: Sparse): Sparse {
    map k | k in m.Keys + r.Keys :: if k in r then Get(m, k) + w * r[k] else m[k]
  }

  function Weighted(w: real, f: string -> real): string -> real { k => w * f(k) }

  lemma DotBlend(n: Sparse, m: Sparse, w: real, r: Sparse, x: real)
    requires x == DotSparse(n, r)
    ensures DotSparse(n, Blend(m, w, r)) == DotSparse(n, m) + w * x
  {
    hide DotSparse, Blend, Sums.SumOver, Products, Weighted;
    DotIsInner(n, m);
    DotIsInner(n, r);
    DotIsInner(n, Blend(m, w, r));
    WeightedSum(n.Keys, w, Products(n, r), x);
    forall k | k in n.Keys
      ensures Products(n, Blend(m, w, r))(k) == Products(n, m)(k) + Weighted(w, Products(n, r))(k)
    {
      BlendAt(n, m, w, r, k);
    }
    Sums.SumAdd(n.Keys, Products(n, m), Weighted(w, Products(n, r)), Products(n, Blend(m, w, r)));
  }

  lemma WeightedSum(keys: set<string>, w: real, f: string -> real, x: real)
    requires x == Sums.SumOver(keys, f)
    ensures Sums.SumOver(keys, Weighted(w, f)) == w * x
  {
    hide Sums.SumOver;
    Sums.SumScale(keys, w, f, Weighted(w, f));
  }

  lemma BlendEntry(m: Sparse, w: real, r: Sparse, k: string, b: real)
    requires b == Get(r, k)
    ensures Get(Blend(m, w, r), k) == Get(m, k) + w * b
  {
    if k in r {
      assert r[k] == b;
    } else {
      assert w * b == 0.0;
    }
  }

  lemma ProductAt(n: Sparse, r: Sparse, k: string, x: real, b: real)
    requires x == Get(n, k) && b == Get(r, k)
    ensures Products(n, r)(k) == x * b
  {
  }

  lemma WeightedAt(w: real, f: string -> real, k: string, y: real)
    requires y == f(k)
    ensures Weighted(w, f)(k) == w * y
  {
  }

  lemma BlendAt(n: Sparse, m: Sparse, w: real, r: Sparse, k: string)
    ensures Products(n, Blend(m, w, r))(k) == Products(n, m)(k) + Weighted(w, Products(n, r))(k)
  {
    hide Blend, Get, Products, Weighted;
    var x, a, b, c, y := Get(n, k), Get(m, k), Get(r, k), Get(Blend(m, w, r), k), Products(n, r)(k);
    BlendEntry(m, w, r, k, b);
    ProductAt(n, m, k, x, a);
    ProductAt(n, r, k, x, b);
    ProductAt(n, Blend(m, w, r), k, x, c);
    WeightedAt(w, Products(n, r), k, y);
    BlendProduct(x, a, w, b, c, y);
  }

  lemma BlendProduct(x: real, a: real, w: real, b: real, c: real, y: real)
    requires c == a + w * b && y == x * b
    ensures x * c == x * a + w * y
  {
    assert x * (w * b) == w * (x * b);
  }

  // ----- Scores -----

  datatype Scored = Scored(atom: Atom, lambda: real, net: real)

  ghost function Score(p: Problem, a: Atom): Scored
    requires |p.penalties| == |a.costs|
  {
    var lambda := DotSparse(p.normal, a.response);
    Scored(a, lambda, lambda - Dot(p.penalties, a.costs))
  }

  function Lambdas(kept: seq<Scored>): (v: Vec)
    ensures |v| == |kept|
  {
    seq(|kept|, i requires 0 <= i < |kept| => kept[i].lambda)
  }

  function Nets(kept: seq<Scored>): (v: Vec)
    ensures |v| == |kept|
  {
    seq(|kept|, i requires 0 <= i < |kept| => kept[i].net)
  }

  ghost predicate Honest(p: Problem, kept: seq<Scored>) {
    && |p.limits| == |p.penalties| == N_COSTS
    && forall s :: s in kept ==> |s.atom.costs| == N_COSTS && s == Score(p, s.atom) && WithinBudget(p, s.atom.costs)
  }

  // ----- The mixture -----

  /** The relaxed response of the first n kept atoms. */
  function Relaxed(kept: seq<Scored>, w: Vec, n: nat): Sparse
    requires n <= |kept| == |w|
  {
    if n == 0 then map[] else Blend(Relaxed(kept, w, n - 1), w[n - 1], kept[n - 1].atom.response)
  }

  function MixedCosts(kept: seq<Scored>, w: Vec, n: nat): (v: Vec)
    requires n <= |kept| == |w| && forall s :: s in kept ==> |s.atom.costs| == N_COSTS
    ensures |v| == N_COSTS
  {
    if n == 0 then Zeros(N_COSTS)
    else Add(MixedCosts(kept, w, n - 1), Scale(w[n - 1], kept[n - 1].atom.costs))
  }

  lemma {:induction false} RelaxedScore(p: Problem, kept: seq<Scored>, w: Vec, n: nat)
    requires Honest(p, kept) && n <= |kept| == |w|
    ensures DotSparse(p.normal, Relaxed(kept, w, n)) == DotTo(w, Lambdas(kept), n)
  {
    hide DotSparse, Blend;
    if n == 0 {
      DotEmpty(p.normal);
    } else {
      assert kept[n - 1] in kept && kept[n - 1] == Score(p, kept[n - 1].atom);
      RelaxedScore(p, kept, w, n - 1);
      DotBlend(p.normal, Relaxed(kept, w, n - 1), w[n - 1], kept[n - 1].atom.response, Lambdas(kept)[n - 1]);
    }
  }

  lemma DotEmpty(n: Sparse)
    ensures DotSparse(n, map[]) == 0.0
  {
    var none: Sparse := map[];
    DotIsInner(n, none);
    assert n.Keys * none.Keys == {};
  }

  function Penalties(p: Problem, kept: seq<Scored>): (v: Vec)
    requires |p.penalties| == N_COSTS && forall s :: s in kept ==> |s.atom.costs| == N_COSTS
    ensures |v| == |kept|
  {
    seq(|kept|, i requires 0 <= i < |kept| => Dot(p.penalties, kept[i].atom.costs))
  }

  lemma {:induction false} MixedPenalty(p: Problem, kept: seq<Scored>, w: Vec, n: nat)
    requires Honest(p, kept) && n <= |kept| == |w|
    ensures Dot(p.penalties, MixedCosts(kept, w, n)) == DotTo(w, Penalties(p, kept), n)
  {
    hide DotSparse, WithinBudget;
    if n == 0 {
      DotZeros(p.penalties);
    } else {
      MixedPenalty(p, kept, w, n - 1);
      var c := kept[n - 1].atom.costs;
      DotAdd(MixedCosts(kept, w, n - 1), Scale(w[n - 1], c), p.penalties);
      DotScale(w[n - 1], c, p.penalties);
      assert Penalties(p, kept)[n - 1] == Dot(p.penalties, c);
    }
  }

  /** The net score the program reports for a mixture. */
  ghost function NetScore(p: Problem, kept: seq<Scored>, w: Vec): real
    requires |kept| == |w| && |p.penalties| == N_COSTS && forall s :: s in kept ==> |s.atom.costs| == N_COSTS
  {
    DotSparse(p.normal, Relaxed(kept, w, |kept|)) - Dot(p.penalties, MixedCosts(kept, w, |kept|))
  }

  lemma NetsAreDifferences(p: Problem, kept: seq<Scored>)
    requires Honest(p, kept)
    ensures Nets(kept) == Sub(Lambdas(kept), Penalties(p, kept))
  {
    hide DotSparse, DotTo, WithinBudget;
    forall i | 0 <= i < |kept| ensures Nets(kept)[i] == Sub(Lambdas(kept), Penalties(p, kept))[i] {
      assert kept[i] in kept && kept[i] == Score(p, kept[i].atom);
    }
  }

  /** Net scores mix linearly. */
  lemma NetIsWeightedSum(p: Problem, kept: seq<Scored>, w: Vec)
    requires Honest(p, kept) && |kept| == |w|
    ensures NetScore(p, kept, w) == Dot(w, Nets(kept))
  {
    hide DotSparse, DotTo, Relaxed, MixedCosts, WithinBudget, Score, Lambdas, Nets, Penalties;
    RelaxedScore(p, kept, w, |kept|);
    MixedPenalty(p, kept, w, |kept|);
    DotSub(Lambdas(kept), Penalties(p, kept), w);
    NetsAreDifferences(p, kept);
  }

  ghost predicate Weights(w: Vec) { AllNonneg(w) && Sum(w) == 1.0 }

  lemma {:induction false} ConvexBoundTo(w: Vec, v: Vec, m: real, n: nat)
    requires n <= |w| == |v| && AllNonneg(w) && forall i :: 0 <= i < |v| ==> v[i] <= m
    ensures DotTo(w, v, n) <= m * SumTo(w, n)
  {
    if n == 0 {
    } else {
      ConvexBoundTo(w, v, m, n - 1);
      var x := w[n - 1];
      MulMono(x, v[n - 1], m);
      assert m * SumTo(w, n) == m * SumTo(w, n - 1) + x * m by {
        SplitProduct(m, SumTo(w, n - 1), x);
      }
    }
  }

  lemma SplitProduct(m: real, s: real, x: real)
    ensures m * (s + x) == m * s + x * m
  {
  }

  /** A weighted mean never exceeds a common bound. */
  lemma ConvexBound(w: Vec, v: Vec, m: real)
    requires |w| == |v| && Weights(w) && forall i :: 0 <= i < |v| ==> v[i] <= m
    ensures Dot(w, v) <= m
  {
    hide DotTo, SumTo;
    ConvexBoundTo(w, v, m, |w|);
    assert m * Sum(w) == m;
  }

  function Column(kept: seq<Scored>, j: nat): (v: Vec)
    requires j < N_COSTS && forall s :: s in kept ==> |s.atom.costs| == N_COSTS
    ensures |v| == |kept|
  {
    seq(|kept|, i requires 0 <= i < |kept| => kept[i].atom.costs[j])
  }

  lemma MixedStep(kept: seq<Scored>, w: Vec, n: nat, j: nat)
    requires n <= |kept| == |w| && j < N_COSTS && forall s :: s in kept ==> |s.atom.costs| == N_COSTS
    ensures MixedCosts(kept, w, n)[j] ==
      if n == 0 then 0.0 else MixedCosts(kept, w, n - 1)[j] + Scale(w[n - 1], kept[n - 1].atom.costs)[j]
  {
    hide Scale;
  }

  lemma {:induction false} MixedColumn(kept: seq<Scored>, w: Vec, n: nat, j: nat)
    requires n <= |kept| == |w| && j < N_COSTS && forall s :: s in kept ==> |s.atom.costs| == N_COSTS
    ensures MixedCosts(kept, w, n)[j] == DotTo(w, Column(kept, j), n)
  {
    hide MixedCosts, Scale;
    MixedStep(kept, w, n, j);
    if n == 0 {
    } else {
      MixedColumn(kept, w, n - 1, j);
      var x, y := w[n - 1], kept[n - 1].atom.costs[j];
      ScaleAt(x, kept[n - 1].atom.costs, j, y);
      DotStep(w, Column(kept, j), n, x, y);
      hide DotTo;
    }
  }

  /** A mixture meets every budget its atoms meet. */
  lemma MixtureWithinBudget(p: Problem, kept: seq<Scored>, w: Vec)
    requires Honest(p, kept) && |kept| == |w| && Weights(w)
    ensures WithinBudget(p, MixedCosts(kept, w, |kept|))
  {
    hide DotSparse, DotTo, MixedCosts;
    forall j | 0 <= j < N_COSTS && p.limits[j].Some?
      ensures MixedCosts(kept, w, |kept|)[j] <= p.limits[j].value
    {
      MixedColumn(kept, w, |kept|, j);
      forall i | 0 <= i < |kept| ensures Column(kept, j)[i] <= p.limits[j].value {
        assert kept[i] in kept;
      }
      ConvexBound(w, Column(kept, j), p.limits[j].value);
    }
  }

  // ----- Weights -----

  const MIN_TEMPERATURE: real := 0.000000001

  function Clip(x: real): real { if x < -60.0 then -60.0 else if x > 60.0 then 60.0 else x }

  function Temperature(t: real): (r: real)
    ensures r > 0.0
  {
    if t > MIN_TEMPERATURE then t else MIN_TEMPERATURE
  }

  function Exponentials(values: Vec, temperature: real, exp: real -> real): (v: Vec)
    requires values != []
    ensures |v| == |values|
  {
    var scaled := Scale(1.0 / Temperature(temperature), values);
    var top := MaxEntry(scaled);
    seq(|values|, i requires 0 <= i < |values| => exp(Clip(scaled[i] - top)))
  }

  function Softmax(values: Vec, temperature: real, exp: real -> real): (w: Vec)
    ensures |w| == |values|
  {
    if values == [] then []
    else
      var e := Exponentials(values, temperature, exp);
      if Sum(e) <= 0.0 then seq(|values|, i => 1.0 / |values| as real) else Scale(1.0 / Sum(e), e)
  }

  lemma {:induction false} SumPositiveTo(v: Vec, n: nat)
    requires 0 < n <= |v| && forall i :: 0 <= i < |v| ==> v[i] > 0.0
    ensures SumTo(v, n) > 0.0
  {
    if n == 1 {
    } else {
      SumPositiveTo(v, n - 1);
    }
  }

  lemma Inverse(x: real)
    requires x > 0.0
    ensures 1.0 / x > 0.0 && 1.0 / x * x == 1.0
  {
  }

  ghost predicate AllPositive(v: Vec) { forall i :: 0 <= i < |v| ==> v[i] > 0.0 }

  lemma NormalisedWeights(e: Vec)
    requires e != [] && AllPositive(e)
    ensures Sum(e) > 0.0 && Weights(Scale(1.0 / Sum(e), e)) && AllPositive(Scale(1.0 / Sum(e), e))
  {
    hide SumTo;
    SumPositiveTo(e, |e|);
    var t := 1.0 / Sum(e);
    Inverse(Sum(e));
    SumScaleTo(t, e, |e|);
    forall i | 0 <= i < |e| ensures Scale(t, e)[i] > 0.0 {
      ProductSign(t, e[i]);
    }
  }

  /** With a positive exponential the weights are positive and sum to one: the uniform fallback is never taken. */
  lemma SoftmaxIsConvex(values: Vec, temperature: real, exp: real -> real)
    requires values != [] && forall x :: exp(x) > 0.0
    ensures Weights(Softmax(values, temperature, exp)) && AllPositive(Softmax(values, temperature, exp))
    ensures Sum(Exponentials(values, temperature, exp)) > 0.0
  {
    NormalisedWeights(Exponentials(values, temperature, exp));
  }

  lemma ScaleOrder(c: real, v: Vec, i: nat, j: nat)
    requires c >= 0.0 && i < |v| && j < |v| && v[i] <= v[j]
    ensures Scale(c, v)[i] <= Scale(c, v)[j]
  {
    MulMono(c, v[i], v[j]);
  }

  lemma ExponentialsFollow(values: Vec, temperature: real, exp: real -> real, i: nat, j: nat)
    requires values != [] && forall x, y :: x <= y ==> exp(x) <= exp(y)
    requires i < |values| && j < |values| && values[i] <= values[j]
    ensures Exponentials(values, temperature, exp)[i] <= Exponentials(values, temperature, exp)[j]
  {
    hide MaxEntry, Scale;
    var t := Temperature(temperature);
    Inverse(t);
    ScaleOrder(1.0 / t, values, i, j);
    var scaled := Scale(1.0 / t, values);
    var top := MaxEntry(scaled);
    assert Clip(scaled[i] - top) <= Clip(scaled[j] - top);
  }

  /** Better scores never get smaller weights. */
  lemma SoftmaxFollowsScores(values: Vec, temperature: real, exp: real -> real, i: nat, j: nat)
    requires values != [] && (forall x :: exp(x) > 0.0) && forall x, y :: x <= y ==> exp(x) <= exp(y)
    requires i < |values| && j < |values| && values[i] <= values[j]
    ensures Softmax(values, temperature, exp)[i] <= Softmax(values, temperature, exp)[j]
  {
    SoftmaxIsConvex(values, temperature, exp);
    ExponentialsFollow(values, temperature, exp, i, j);
    hide Exponentials, Scale, Sum, Weights, AllPositive;
    var e := Exponentials(values, temperature, exp);
    Inverse(Sum(e));
    ScaleOrder(1.0 / Sum(e), e, i, j);
  }

  datatype Optimizer = Linear | Convex | Unknown

  function OneHot(n: nat): (w: Vec)
    ensures |w| == n
  {
    seq(n, i => if i == 0 then 1.0 else 0.0)
  }

  lemma {:induction false} OneHotDot(v: Vec, n: nat)
    requires 0 < n <= |v|
    ensures DotTo(OneHot(|v|), v, n) == v[0] && SumTo(OneHot(|v|), n) == 1.0
  {
    if n > 1 {
      OneHotDot(v, n - 1);
      assert OneHot(|v|)[n - 1] == 0.0;
    } else {
      assert OneHot(|v|)[0] == 1.0;
      assert DotTo(OneHot(|v|), v, 0) == 0.0 && SumTo(OneHot(|v|), 0) == 0.0;
    }
  }

  function WeightsOf(opt: Optimizer, kept: seq<Scored>, temperature: real, exp: real -> real): (w: Vec)
    requires !opt.Unknown?
    ensures |w| == |kept|
  {
    if opt.Linear? then OneHot(|kept|) else Softmax(Nets(kept), temperature, exp)
  }

  lemma WeightsAreConvex(opt: Optimizer, kept: seq<Scored>, temperature: real, exp: real -> real)
    requires kept != [] && !opt.Unknown? && forall x :: exp(x) > 0.0
    ensures Weights(WeightsOf(opt, kept, temperature, exp))
  {
    if opt.Linear? {
      OneHotDot(Nets(kept), |kept|);
    } else {
      SoftmaxIsConvex(Nets(kept), temperature, exp);
    }
  }

  // ----- Ranking the feasible atoms -----

  /** Larger net score, then larger lambda, then the later identifier. */
  predicate Ahead(a: Scored, b: Scored) {
    || a.net > b.net
    || (a.net == b.net && (a.lambda > b.lambda || (a.lambda == b.lambda && Sorting.LexLe(b.atom.id, a.atom.id))))
  }

  lemma AheadIsOrder()
    ensures Sorting.TotalPreorder(Ahead)
  {
    forall a, b ensures Ahead(a, b) || Ahead(b, a) {
      Sorting.LexTotal(a.atom.id, b.atom.id);
    }
    forall a, b, c | Ahead(a, b) && Ahead(b, c) ensures Ahead(a, c) {
      if Sorting.LexLe(b.atom.id, a.atom.id) && Sorting.LexLe(c.atom.id, b.atom.id) {
        Sorting.LexTransitive(c.atom.id, b.atom.id, a.atom.id);
      }
    }
  }

  ghost function Feasible(p: Problem, atoms: seq<Atom>): seq<Scored>
    requires WellFormed(p, atoms)
  {
    if atoms == [] then []
    else
      var rest := Feasible(p, atoms[..|atoms| - 1]);
      var a := atoms[|atoms| - 1];
      if WithinBudget(p, a.costs) then rest + [Score(p, a)] else rest
  }

  function KeptCount(topK: int, n: nat): nat {
    var k := if topK < 1 then 1 else topK;
    if k < n then k else n
  }

  ghost function Kept(p: Problem, atoms: seq<Atom>, topK: int): seq<Scored>
    requires WellFormed(p, atoms)
  {
    var ranked := Sorting.Sort(Feasible(p, atoms), Ahead);
    ranked[..KeptCount(topK, |ranked|)]
  }

  lemma {:induction false} FeasibleMembers(p: Problem, atoms: seq<Atom>, s: Scored)
    requires WellFormed(p, atoms)
    ensures s in Feasible(p, atoms) <==> s.atom in atoms && WithinBudget(p, s.atom.costs) && s == Score(p, s.atom)
  {
    hide DotSparse;
    if atoms == [] {
    } else {
      var before, a := atoms[..|atoms| - 1], atoms[|atoms| - 1];
      FeasibleMembers(p, before, s);
      assert atoms == before + [a];
    }
  }

  lemma RankedMembers(p: Problem, atoms: seq<Atom>, s: Scored)
    requires WellFormed(p, atoms)
    ensures var ranked := Sorting.Sort(Feasible(p, atoms), Ahead); s in ranked <==> s in Feasible(p, atoms)
  {
    AheadIsOrder();
    Sorting.SortIsSorted(Feasible(p, atoms), Ahead);
    var ranked := Sorting.Sort(Feasible(p, atoms), Ahead);
    assert s in ranked <==> s in multiset(ranked);
    assert s in Feasible(p, atoms) <==> s in multiset(Feasible(p, atoms));
  }

  lemma KeptIsHonest(p: Problem, atoms: seq<Atom>, topK: int)
    requires WellFormed(p, atoms)
    ensures Honest(p, Kept(p, atoms, topK))
  {
    hide DotSparse, WithinBudget, Score, Feasible;
    forall s | s in Kept(p, atoms, topK)
      ensures |s.atom.costs| == N_COSTS && s == Score(p, s.atom) && WithinBudget(p, s.atom.costs)
    {
      RankedMembers(p, atoms, s);
      FeasibleMembers(p, atoms, s);
    }
  }

  /** The first kept atom has the best net score of all atoms within budget. */
  lemma FirstIsBest(p: Problem, atoms: seq<Atom>, topK: int, a: Atom)
    requires WellFormed(p, atoms) && a in atoms && WithinBudget(p, a.costs)
    ensures Kept(p, atoms, topK) != [] && Score(p, a).net <= Kept(p, atoms, topK)[0].net
  {
    hide DotSparse, WithinBudget, Feasible;
    AheadIsOrder();
    Sorting.SortIsSorted(Feasible(p, atoms), Ahead);
    FeasibleMembers(p, atoms, Score(p, a));
    RankedMembers(p, atoms, Score(p, a));
    var ranked := Sorting.Sort(Feasible(p, atoms), Ahead);
    var i :| 0 <= i < |ranked| && ranked[i] == Score(p, a);
    assert i > 0 ==> Ahead(ranked[0], ranked[i]);
  }

  lemma FirstIsBestOfAll(p: Problem, atoms: seq<Atom>, topK: int)
    requires WellFormed(p, atoms)
    ensures forall a :: a in atoms && WithinBudget(p, a.costs) ==>
      Kept(p, atoms, topK) != [] && Score(p, a).net <= Kept(p, atoms, topK)[0].net
  {
    hide Kept, Score, WithinBudget;
    forall a | a in atoms && WithinBudget(p, a.costs)
      ensures Kept(p, atoms, topK) != [] && Score(p, a).net <= Kept(p, atoms, topK)[0].net
    {
      FirstIsBest(p, atoms, topK, a);
    }
  }

  lemma KeptIsOrdered(p: Problem, atoms: seq<Atom>, topK: int, i: nat)
    requires WellFormed(p, atoms) && i < |Kept(p, atoms, topK)|
    ensures Kept(p, atoms, topK)[i].net <= Kept(p, atoms, topK)[0].net
  {
    hide Feasible;
    AheadIsOrder();
    Sorting.SortIsSorted(Feasible(p, atoms), Ahead);
    var ranked := Sorting.Sort(Feasible(p, atoms), Ahead);
    assert i > 0 ==> Ahead(ranked[0], ranked[i]);
  }

  lemma LinearNet(p: Problem, kept: seq<Scored>)
    requires Honest(p, kept) && kept != []
    ensures NetScore(p, kept, OneHot(|kept|)) == kept[0].net
  {
    NetIsWeightedSum(p, kept, OneHot(|kept|));
    OneHotDot(Nets(kept), |kept|);
    hide NetScore, Honest, DotTo;
  }

  /** Whatever convex weights are used, the mixture's reported net score is the weighted mean of its
      atoms' and never exceeds what the linear optimizer reports, the best of all feasible atoms. */
  lemma MixtureNeverBeatsLinear(p: Problem, atoms: seq<Atom>, topK: int, w: Vec)
    requires WellFormed(p, atoms) && |w| == |Kept(p, atoms, topK)| && Weights(w) && w != []
    ensures var kept := Kept(p, atoms, topK);
      && Honest(p, kept) && NetScore(p, kept, w) == Dot(w, Nets(kept))
      && NetScore(p, kept, w) <= NetScore(p, kept, OneHot(|kept|)) == kept[0].net
  {
    var kept := Kept(p, atoms, topK);
    KeptIsHonest(p, atoms, topK);
    MixtureBelowFirst(p, kept, w) by {
      forall i | 0 <= i < |kept| ensures kept[i].net <= kept[0].net {
        KeptIsOrdered(p, atoms, topK, i);
      }
    }
  }

  lemma MixtureBelowFirst(p: Problem, kept: seq<Scored>, w: Vec)
    requires Honest(p, kept) && |w| == |kept| && Weights(w) && w != []
    requires forall i :: 0 <= i < |kept| ==> kept[i].net <= kept[0].net
    ensures NetScore(p, kept, w) == Dot(w, Nets(kept))
    ensures NetScore(p, kept, w) <= NetScore(p, kept, OneHot(|kept|)) == kept[0].net
  {
    hide NetScore, Honest, DotTo, Weights;
    NetIsWeightedSum(p, kept, w);
    LinearNet(p, kept);
    ConvexBound(w, Nets(kept), kept[0].net);
  }

  // ----- Hardening -----

  const DROPPED: real := 0.000000000001

  /** Whether a kept atom survives into the decoded support: its weight is above the cut and it has a tactic. */
  predicate Decoded(kept: seq<Scored>, w: Vec, i: nat)
    requires i < |kept| == |w|
  {
    w[i] > DROPPED && kept[i].atom.hasTactic
  }

  /** The best predicted score of the first n decoded atoms. */
  function BestTo(kept: seq<Scored>, w: Vec, n: nat): Option<real>
    requires n <= |kept| == |w|
  {
    if n == 0 then None
    else
      var b := BestTo(kept, w, n - 1);
      if Decoded(kept, w, n - 1) && (b.None? || kept[n - 1].lambda > b.value) then Some(kept[n - 1].lambda) else b
  }

  function BestSupport(kept: seq<Scored>, w: Vec): real
    requires |kept| == |w|
  {
    var b := BestTo(kept, w, |kept|);
    if b.Some? then b.value else 0.0
  }

  /** The reported gap between the relaxed object and its best decoded tactic. */
  ghost function HardeningGap(p: Problem, kept: seq<Scored>, w: Vec): real
    requires |kept| == |w|
  {
    var d := DotSparse(p.normal, Relaxed(kept, w, |kept|)) - BestSupport(kept, w);
    if d > 0.0 then d else 0.0
  }

  lemma {:induction false} BestMeaning(kept: seq<Scored>, w: Vec, n: nat)
    requires n <= |kept| == |w|
    ensures forall i :: 0 <= i < n && w[i] > 0.000000000001 && kept[i].atom.hasTactic ==>
      BestTo(kept, w, n).Some? && kept[i].lambda <= BestTo(kept, w, n).value
    ensures BestTo(kept, w, n).Some? ==> exists i ::
      0 <= i < n && w[i] > 0.000000000001 && kept[i].atom.hasTactic && kept[i].lambda == BestTo(kept, w, n).value
  {
    if n == 0 {
    } else {
      BestMeaning(kept, w, n - 1);
    }
  }

  /** The largest product of a kept atom with a tactic and a weight above 1e-12, or 0 when there is none. */
  ghost predicate IsBest(kept: seq<Scored>, w: Vec, best: real)
    requires |kept| == |w|
  {
    && (forall i :: 0 <= i < |kept| && w[i] > 0.000000000001 && kept[i].atom.hasTactic ==> kept[i].lambda <= best)
    && (|| (best == 0.0 && forall i :: 0 <= i < |kept| ==> w[i] <= 0.000000000001 || !kept[i].atom.hasTactic)
        || exists i :: 0 <= i < |kept| && w[i] > 0.000000000001 && kept[i].atom.hasTactic && kept[i].lambda == best)
  }

  /** The gap is what the relaxed product exceeds the best decoded one by, if it does. */
  lemma GapMeaning(p: Problem, kept: seq<Scored>, w: Vec)
    requires |kept| == |w|
    ensures exists best: real ::
      && IsBest(kept, w, best)
      && (var d := DotSparse(p.normal, Relaxed(kept, w, |kept|)) - best;
          HardeningGap(p, kept, w) == if d > 0.0 then d else 0.0)
  {
    hide DotSparse, Relaxed, BestTo;
    BestMeaning(kept, w, |kept|);
    assert IsBest(kept, w, BestSupport(kept, w));
  }

  lemma {:induction false} BestBounds(kept: seq<Scored>, w: Vec, n: nat, i: nat)
    requires i < n <= |kept| == |w| && Decoded(kept, w, i)
    ensures BestTo(kept, w, n).Some? && kept[i].lambda <= BestTo(kept, w, n).value
  {
    if i == n - 1 {
    } else {
      BestBounds(kept, w, n - 1, i);
    }
  }

  /** The weighted advantage of the atoms that were lost on the way. */
  function LostTo(kept: seq<Scored>, w: Vec, best: real, n: nat): real
    requires n <= |kept| == |w|
  {
    if n == 0 then 0.0
    else LostTo(kept, w, best, n - 1) + if Decoded(kept, w, n - 1) then 0.0 else w[n - 1] * (kept[n - 1].lambda - best)
  }

  /** One more atom with weight x and score l, on top of weights that sum to sum. */
  lemma LostStep(x: real, l: real, best: real, sum: real, mean: real, lost: real, decoded: bool)
    requires x >= 0.0 && (decoded ==> l <= best) && mean <= best * sum + lost
    ensures mean + x * l <= best * (sum + x) + (lost + if decoded then 0.0 else x * (l - best))
  {
    SplitProduct(best, sum, x);
    if decoded {
      MulMono(x, l, best);
    } else {
      assert x * (l - best) == x * l - x * best;
    }
  }

  lemma {:induction false} MeanIsLost(kept: seq<Scored>, w: Vec, best: real, n: nat)
    requires n <= |kept| == |w| && AllNonneg(w)
    requires forall i :: 0 <= i < n && Decoded(kept, w, i) ==> kept[i].lambda <= best
    ensures DotTo(w, Lambdas(kept), n) <= best * SumTo(w, n) + LostTo(kept, w, best, n)
  {
    hide Decoded;
    if n == 0 {
    } else {
      MeanIsLost(kept, w, best, n - 1);
      LostStep(w[n - 1], kept[n - 1].lambda, best, SumTo(w, n - 1), DotTo(w, Lambdas(kept), n - 1),
               LostTo(kept, w, best, n - 1), Decoded(kept, w, n - 1));
    }
  }

  /** The gap is at most what the lost atoms contributed above the best decoded one. */
  lemma GapBound(p: Problem, kept: seq<Scored>, w: Vec)
    requires Honest(p, kept) && |kept| == |w| && Weights(w)
    ensures var lost := LostTo(kept, w, BestSupport(kept, w), |kept|);
      HardeningGap(p, kept, w) <= if lost > 0.0 then lost else 0.0
  {
    RelaxedScore(p, kept, w, |kept|);
    var best := BestSupport(kept, w);
    forall i | 0 <= i < |kept| && Decoded(kept, w, i) ensures kept[i].lambda <= best {
      BestBounds(kept, w, |kept|, i);
    }
    MeanIsLost(kept, w, best, |kept|);
    hide DotSparse, DotTo, SumTo, LostTo, Lambdas, Relaxed;
    assert best * Sum(w) == best;
  }

  lemma {:induction false} NothingLost(kept: seq<Scored>, w: Vec, best: real, n: nat)
    requires n <= |kept| == |w| && forall i :: 0 <= i < n ==> Decoded(kept, w, i) || w[i] == 0.0
    ensures LostTo(kept, w, best, n) == 0.0
  {
    if n == 0 {
    } else {
      NothingLost(kept, w, best, n - 1);
    }
  }

  /** When every atom that carries weight is decoded, hardening loses nothing. */
  lemma GapCloses(p: Problem, kept: seq<Scored>, w: Vec)
    requires Honest(p, kept) && |kept| == |w| && Weights(w)
    requires forall i :: 0 <= i < |kept| ==> Decoded(kept, w, i) || w[i] == 0.0
    ensures HardeningGap(p, kept, w) == 0.0
  {
    GapBound(p, kept, w);
    NothingLost(kept, w, BestSupport(kept, w), |kept|);
  }

  lemma SmallProduct(x: real, d: real, spread: real, unit: real)
    requires 0.0 <= x <= DROPPED && d <= spread && spread >= 0.0 && unit == DROPPED * spread
    ensures x * d <= unit
  {
    MulMono(x, d, spread);
    MulMono(spread, x, DROPPED);
  }

  lemma {:induction false} LittleLost(kept: seq<Scored>, w: Vec, best: real, spread: real, unit: real, n: nat)
    requires n <= |kept| == |w| && AllNonneg(w) && spread >= 0.0 && unit == DROPPED * spread && unit >= 0.0
    requires forall i :: 0 <= i < n ==> kept[i].atom.hasTactic && kept[i].lambda - best <= spread
    ensures LostTo(kept, w, best, n) <= n as real * unit
  {
    if n == 0 {
    } else {
      LittleLost(kept, w, best, spread, unit, n - 1);
      if !Decoded(kept, w, n - 1) {
        SmallProduct(w[n - 1], kept[n - 1].lambda - best, spread, unit);
      }
      Successor(n, unit);
    }
  }

  lemma Successor(n: nat, unit: real)
    requires n > 0
    ensures n as real * unit == (n - 1) as real * unit + unit
  {
  }

  /** When every atom has a tactic, only weights below the cut are lost and the gap is negligible. */
  lemma GapIsNegligible(p: Problem, kept: seq<Scored>, w: Vec, spread: real, unit: real)
    requires Honest(p, kept) && |kept| == |w| && Weights(w) && spread >= 0.0 && unit == DROPPED * spread
    requires forall i :: 0 <= i < |kept| ==>
      kept[i].atom.hasTactic && kept[i].lambda - BestSupport(kept, w) <= spread
    ensures HardeningGap(p, kept, w) <= |kept| as real * unit
  {
    hide Honest, HardeningGap, LostTo, BestSupport, SumTo;
    GapBound(p, kept, w);
    MulMono(DROPPED, 0.0, spread);
    LittleLost(kept, w, BestSupport(kept, w), spread, unit, |kept|);
    MulMono(|kept| as real, 0.0, unit);
  }

  // ----- What a mixture is, in terms of the problem and its atoms -----

  /** The product of the normal with the atom's response over their common keys, and that less the penalties. */
  ghost predicate ScoredAs(p: Problem, s: Scored)
    requires |p.penalties| == |s.atom.costs| == N_COSTS
  {
    && s.lambda == Sums.SumOver(p.normal.Keys * s.atom.response.Keys, (k: string) =>
         (if k in p.normal then p.normal[k] else 0.0) * (if k in s.atom.response then s.atom.response[k] else 0.0))
    && s.net == s.lambda - (p.penalties[0] * s.atom.costs[0] + p.penalties[1] * s.atom.costs[1]
         + p.penalties[2] * s.atom.costs[2] + p.penalties[3] * s.atom.costs[3] + p.penalties[4] * s.atom.costs[4])
  }

  /** No cost of the atom is above its limit. */
  ghost predicate Meets(p: Problem, a: Atom) {
    forall j :: 0 <= j < |p.limits| && j < |a.costs| && p.limits[j].Some? ==> a.costs[j] <= p.limits[j].value
  }

  function AtomsOf(scored: seq<Scored>): (atoms: seq<Atom>)
    ensures |atoms| == |scored|
  {
    seq(|scored|, i requires 0 <= i < |scored| => scored[i].atom)
  }

  ghost function MeetsLimits(p: Problem): Atom -> bool { (a: Atom) => Meets(p, a) }

  /** The atoms within budget, scored, by falling net score, then falling lambda, then falling identifier. */
  ghost predicate IsRanking(p: Problem, atoms: seq<Atom>, ranked: seq<Scored>)
    requires WellFormed(p, atoms)
  {
    && (exists scored ::
          AtomsOf(scored) == Sorting.Where(atoms, MeetsLimits(p)) && multiset(ranked) == multiset(scored))
    && (forall s :: s in ranked ==> |s.atom.costs| == N_COSTS && ScoredAs(p, s))
    && forall i, j :: 0 <= i < j < |ranked| ==>
         || ranked[i].net > ranked[j].net
         || (ranked[i].net == ranked[j].net
             && (|| ranked[i].lambda > ranked[j].lambda
                 || (ranked[i].lambda == ranked[j].lambda && Sorting.LexLe(ranked[j].atom.id, ranked[i].atom.id))))
  }

  /** The linear optimizer puts all weight on the first atom; the convex one divides it by the exponentials of the
      net scores over the temperature, which is at least 1e-9. */
  ghost predicate IsWeighting(opt: Optimizer, kept: seq<Scored>, temperature: real, exp: real -> real, w: Vec) {
    && |w| == |kept|
    && (opt.Linear? ==> forall i :: 0 <= i < |kept| ==> w[i] == if i == 0 then 1.0 else 0.0)
    && (opt.Convex? ==>
          Softmaxed(kept, 1.0 / (if temperature > 0.000000001 then temperature else 0.000000001), exp, w))
  }

  ghost predicate Softmaxed(kept: seq<Scored>, c: real, exp: real -> real, w: Vec) {
    exists scaled: Vec, e: Vec, top: real :: Softly(kept, c, exp, w, scaled, e, top)
  }

  /** scaled lists c times the net scores, e the exponentials of those less the largest, kept between -60 and 60;
      w divides e by its sum, and is uniform when that is not positive. */
  ghost predicate Softly(kept: seq<Scored>, c: real, exp: real -> real, w: Vec, scaled: Vec, e: Vec, top: real) {
    && |scaled| == |e| == |w| == |kept|
    && (forall i :: 0 <= i < |kept| ==> scaled[i] == c * kept[i].net)
    && top in scaled && (forall i :: 0 <= i < |kept| ==> scaled[i] <= top)
    && (forall i :: 0 <= i < |kept| ==> IsExponential(scaled[i] - top, exp, e[i]))
    && forall i :: 0 <= i < |kept| ==> if Sum(e) > 0.0 then w[i] * Sum(e) == e[i] else w[i] * |kept| as real == 1.0
  }

  ghost predicate IsExponential(x: real, exp: real -> real, e: real) {
    e == exp(if x < -60.0 then -60.0 else if x > 60.0 then 60.0 else x)
  }

  /** Column k of the kept responses. */
  ghost function Responses(kept: seq<Scored>, k: string): (v: Vec)
    ensures |v| == |kept|
  {
    seq(|kept|, i requires 0 <= i < |kept| => if k in kept[i].atom.response then kept[i].atom.response[k] else 0.0)
  }

  /** The weighted sums of the kept atoms' responses and costs. */
  ghost predicate IsBlend(kept: seq<Scored>, w: Vec, response: Sparse, costs: Vec)
    requires |kept| == |w| && forall s :: s in kept ==> |s.atom.costs| == N_COSTS
  {
    && (forall k: string :: k in response <==> exists i :: 0 <= i < |kept| && k in kept[i].atom.response)
    && (forall k: string :: k in response ==> response[k] == Dot(w, Responses(kept, k)))
    && |costs| == N_COSTS && forall j: nat :: j < N_COSTS ==>
         costs[j] == Dot(w, seq(|kept|, i requires 0 <= i < |kept| => kept[i].atom.costs[j]))
  }

  /** c keeps the first topK atoms of the ranking, at least one, and mixes them. */
  ghost predicate IsMixture(p: Problem, atoms: seq<Atom>, opt: Optimizer, temperature: real, topK: int,
                            exp: real -> real, c: Candidate)
    requires WellFormed(p, atoms) && c.Mixture?
  {
    && (exists ranked :: IsRanking(p, atoms, ranked)
          && c.kept <= ranked
          && |c.kept| == if |ranked| <= topK || |ranked| <= 1 then |ranked| else if topK < 1 then 1 else topK)
    && (forall s :: s in c.kept ==> |s.atom.costs| == N_COSTS)
    && IsWeighting(opt, c.kept, temperature, exp, c.weights) && IsBlend(c.kept, c.weights, c.response, c.costs)
    && ScoredAs(p, Scored(Atom("", c.response, c.costs, false), c.lambda, c.net))
  }

  lemma FiveTerms(v: Vec, w: Vec)
    requires |v| == |w| == N_COSTS
    ensures Dot(v, w) == v[0] * w[0] + v[1] * w[1] + v[2] * w[2] + v[3] * w[3] + v[4] * w[4]
  {
    assert DotTo(v, w, 0) == 0.0;
    assert DotTo(v, w, 2) == DotTo(v, w, 1) + v[1] * w[1];
    assert DotTo(v, w, 4) == DotTo(v, w, 3) + v[3] * w[3];
  }

  lemma ProductMeaning(n: Sparse, r: Sparse)
    ensures DotSparse(n, r) == Sums.SumOver(n.Keys * r.Keys, (k: string) =>
      (if k in n then n[k] else 0.0) * (if k in r then r[k] else 0.0))
  {
    hide DotSparse, Sums.SumOver;
    DotIsInner(n, r);
    Sums.SumCong(n.Keys * r.Keys, Products(n, r),
                 (k: string) => (if k in n then n[k] else 0.0) * (if k in r then r[k] else 0.0));
  }

  lemma ScoreMeaning(p: Problem, s: Scored)
    requires |p.penalties| == |s.atom.costs| == N_COSTS && s.lambda == DotSparse(p.normal, s.atom.response)
    requires s.net == s.lambda - Dot(p.penalties, s.atom.costs)
    ensures ScoredAs(p, s)
  {
    hide DotSparse, DotTo, Sums.SumOver;
    ProductMeaning(p.normal, s.atom.response);
    FiveTerms(p.penalties, s.atom.costs);
  }

  lemma {:induction false} FeasibleMeaning(p: Problem, atoms: seq<Atom>)
    requires WellFormed(p, atoms)
    ensures AtomsOf(Feasible(p, atoms)) == Sorting.Where(atoms, MeetsLimits(p))
  {
    hide DotSparse, Sorting.Where;
    if atoms == [] {
      Sorting.WhereNone(MeetsLimits(p));
    } else {
      var before, a := atoms[..|atoms| - 1], atoms[|atoms| - 1];
      FeasibleMeaning(p, before);
      assert atoms == before + [a];
      Sorting.WhereLast(before, a, MeetsLimits(p));
      assert WithinBudget(p, a.costs) <==> Meets(p, a);
    }
  }

  lemma RankingMeaning(p: Problem, atoms: seq<Atom>)
    requires WellFormed(p, atoms)
    ensures IsRanking(p, atoms, Sorting.Sort(Feasible(p, atoms), Ahead))
  {
    hide DotSparse, DotTo, Feasible, Sorting.Sort, Sorting.Where, ScoredAs, WithinBudget;
    var scored := Feasible(p, atoms);
    var ranked := Sorting.Sort(scored, Ahead);
    AheadIsOrder();
    Sorting.SortIsSorted(scored, Ahead);
    FeasibleMeaning(p, atoms);
    forall s | s in ranked ensures |s.atom.costs| == N_COSTS && ScoredAs(p, s) {
      RankedMembers(p, atoms, s);
      FeasibleMembers(p, atoms, s);
      ScoreMeaning(p, s);
    }
    forall i, j | 0 <= i < j < |ranked|
      ensures || ranked[i].net > ranked[j].net
              || (ranked[i].net == ranked[j].net
                  && (|| ranked[i].lambda > ranked[j].lambda
                      || (ranked[i].lambda == ranked[j].lambda
                          && Sorting.LexLe(ranked[j].atom.id, ranked[i].atom.id))))
    {
      assert Ahead(ranked[i], ranked[j]);
    }
  }

  lemma ExponentialAt(kept: seq<Scored>, temperature: real, c: real, exp: real -> real, i: nat)
    requires i < |kept| && c == 1.0 / Temperature(temperature)
    ensures var scaled := Scale(c, Nets(kept));
      && scaled[i] == c * kept[i].net
      && IsExponential(scaled[i] - MaxEntry(scaled), exp, Exponentials(Nets(kept), temperature, exp)[i])
  {
    hide MaxEntry, Scale, Temperature;
    ScaleAt(c, Nets(kept), i, kept[i].net);
    var scaled := Scale(c, Nets(kept));
    assert Exponentials(Nets(kept), temperature, exp)[i] == exp(Clip(scaled[i] - MaxEntry(scaled)));
  }

  lemma Share(x: real, total: real)
    requires total > 0.0
    ensures 1.0 / total * x * total == x
  {
    assert 1.0 / total * total == 1.0;
    assert 1.0 / total * x * total == 1.0 / total * total * x;
  }

  lemma ShareAt(e: Vec, total: real, i: nat)
    requires i < |e| && total > 0.0
    ensures Scale(1.0 / total, e)[i] * total == e[i]
  {
    Share(e[i], total);
  }

  lemma UniformShare(n: nat)
    requires n > 0
    ensures 1.0 / n as real * n as real == 1.0
  {
  }

  lemma SoftmaxMeaning(kept: seq<Scored>, temperature: real, c: real, exp: real -> real)
    requires kept != [] && c == 1.0 / Temperature(temperature)
    ensures Softmaxed(kept, c, exp, Softmax(Nets(kept), temperature, exp))
  {
    hide Exponentials, IsExponential, Scale, MaxEntry, Sum, Temperature;
    var scaled, e := Scale(c, Nets(kept)), Exponentials(Nets(kept), temperature, exp);
    var w := Softmax(Nets(kept), temperature, exp);
    var top := MaxEntry(scaled);
    forall i | 0 <= i < |kept|
      ensures scaled[i] == c * kept[i].net && IsExponential(scaled[i] - top, exp, e[i])
    {
      ExponentialAt(kept, temperature, c, exp, i);
    }
    forall i | 0 <= i < |kept|
      ensures if Sum(e) > 0.0 then w[i] * Sum(e) == e[i] else w[i] * |kept| as real == 1.0
    {
      if Sum(e) > 0.0 {
        ShareAt(e, Sum(e), i);
      } else {
        UniformShare(|kept|);
      }
    }
    assert Softly(kept, c, exp, w, scaled, e, top);
  }

  lemma WeightingMeaning(opt: Optimizer, kept: seq<Scored>, temperature: real, exp: real -> real)
    requires kept != [] && !opt.Unknown?
    ensures IsWeighting(opt, kept, temperature, exp, WeightsOf(opt, kept, temperature, exp))
  {
    hide Softmax, Softmaxed;
    SoftmaxMeaning(kept, temperature, 1.0 / Temperature(temperature), exp);
  }

  lemma {:induction false} RelaxedMeaning(kept: seq<Scored>, w: Vec, n: nat, k: string)
    requires n <= |kept| == |w|
    ensures k in Relaxed(kept, w, n) <==> exists i :: 0 <= i < n && k in kept[i].atom.response
    ensures Get(Relaxed(kept, w, n), k) == DotTo(w, Responses(kept, k), n)
  {
    hide Get;
    if n == 0 {
      assert Get(map[], k) == 0.0 by { EmptyEntry(k); }
    } else {
      RelaxedMeaning(kept, w, n - 1, k);
      var r, b := kept[n - 1].atom.response, Responses(kept, k)[n - 1];
      hide DotTo;
      ResponseEntry(kept, k, n - 1);
      BlendEntry(Relaxed(kept, w, n - 1), w[n - 1], r, k, b);
      DotStep(w, Responses(kept, k), n, w[n - 1], b);
    }
  }

  lemma EmptyEntry(k: string)
    ensures Get(map[], k) == 0.0
  {
  }

  lemma ResponseEntry(kept: seq<Scored>, k: string, i: nat)
    requires i < |kept|
    ensures Responses(kept, k)[i] == Get(kept[i].atom.response, k)
  {
  }

  lemma BlendMeaning(kept: seq<Scored>, w: Vec)
    requires |kept| == |w| && forall s :: s in kept ==> |s.atom.costs| == N_COSTS
    ensures IsBlend(kept, w, Relaxed(kept, w, |kept|), MixedCosts(kept, w, |kept|))
  {
    hide DotTo, Responses, MixedCosts, Relaxed;
    var response, costs := Relaxed(kept, w, |kept|), MixedCosts(kept, w, |kept|);
    forall k: string
      ensures k in response <==> exists i :: 0 <= i < |kept| && k in kept[i].atom.response
      ensures k in response ==> response[k] == Dot(w, Responses(kept, k))
    {
      RelaxedMeaning(kept, w, |kept|, k);
    }
    forall j: nat | j < N_COSTS
      ensures costs[j] == Dot(w, seq(|kept|, i requires 0 <= i < |kept| => kept[i].atom.costs[j]))
    {
      MixedColumn(kept, w, |kept|, j);
      assert Column(kept, j) == seq(|kept|, i requires 0 <= i < |kept| => kept[i].atom.costs[j]);
    }
  }

  // ----- The program -----

  method SumProducts(n: Sparse, r: Sparse) returns (x: real)
    ensures x == Sums.SumOver(n.Keys, Products(n, r))
  {
    x := 0.0;
    var todo := n.Keys;
    ghost var done: set<string> := {};
    Sums.SplitStart(n.Keys);
    assert Sums.SumOver(done, Products(n, r)) == 0.0;
    hide Products, Get, Sums.Split, Sums.SumOver;
    while todo != {}
      invariant Sums.Split(n.Keys, done, todo) && x == Sums.SumOver(done, Products(n, r))
      decreases |todo|
    {
      var k :| k in todo;
      Sums.SplitStep(n.Keys, done, todo, k);
      var a, b := Get(n, k), Get(r, k);
      AddProduct(n, r, done, k, a, b);
      x := x + a * b;
      todo, done := todo - {k}, done + {k};
    }
    Sums.SplitEnd(n.Keys, done);
  }

  lemma AddProduct(n: Sparse, r: Sparse, done: set<string>, k: string, a: real, b: real)
    requires k !in done && a == Get(n, k) && b == Get(r, k)
    ensures Sums.SumOver(done + {k}, Products(n, r)) == Sums.SumOver(done, Products(n, r)) + a * b
  {
    hide Products, Sums.SumOver;
    ProductAt(n, r, k, a, b);
    Sums.SumRemove(done + {k}, Products(n, r), k);
    assert done + {k} - {k} == done;
  }

  method ComputeDot(n: Sparse, r: Sparse) returns (x: real)
    ensures x == DotSparse(n, r)
  {
    if |n| > |r| {
      x := SumProducts(r, n);
    } else {
      x := SumProducts(n, r);
    }
  }

  method ScoreFeasible(p: Problem, atoms: seq<Atom>) returns (scored: seq<Scored>)
    requires WellFormed(p, atoms)
    ensures scored == Feasible(p, atoms)
  {
    scored := [];
    hide DotSparse;
    for n := 0 to |atoms|
      invariant scored == Feasible(p, atoms[..n])
    {
      var a := atoms[n];
      assert atoms[..n + 1][..n] == atoms[..n];
      if WithinBudget(p, a.costs) {
        var lambda := ComputeDot(p.normal, a.response);
        scored := scored + [Scored(a, lambda, lambda - Dot(p.penalties, a.costs))];
      }
    }
    assert atoms[..|atoms|] == atoms;
  }

  datatype Candidate = Empty | Rejected
    | Mixture(kept: seq<Scored>, weights: Vec, response: Sparse, costs: Vec, lambda: real, net: real)

  /** Mixes the responses and costs of the kept atoms. */
  method Mix(kept: seq<Scored>, w: Vec) returns (response: Sparse, costs: Vec)
    requires |kept| == |w| && forall s :: s in kept ==> |s.atom.costs| == N_COSTS
    ensures response == Relaxed(kept, w, |kept|) && costs == MixedCosts(kept, w, |kept|)
  {
    response, costs := map[], Zeros(N_COSTS);
    hide Blend, Zeros;
    for n := 0 to |kept|
      invariant response == Relaxed(kept, w, n) && costs == MixedCosts(kept, w, n)
    {
      response := Blend(response, w[n], kept[n].atom.response);
      costs := Add(costs, Scale(w[n], kept[n].atom.costs));
    }
  }

  lemma HonestCosts(p: Problem, kept: seq<Scored>)
    requires Honest(p, kept)
    ensures |p.penalties| == N_COSTS && forall s :: s in kept ==> |s.atom.costs| == N_COSTS
  {
  }

  ghost predicate Positive(exp: real -> real) { forall x: real :: exp(x) > 0.0 }

  /** The mixture the program builds: convex weights, costs within budget, and a net score that is at most
      the best feasible atom's, which the linear optimizer attains. */
  lemma MixtureIsSound(p: Problem, atoms: seq<Atom>, opt: Optimizer, temperature: real, topK: int, exp: real -> real)
    requires WellFormed(p, atoms) && Kept(p, atoms, topK) != [] && !opt.Unknown? && Positive(exp)
    ensures var kept := Kept(p, atoms, topK); var w := WeightsOf(opt, kept, temperature, exp);
      && Weights(w) && Honest(p, kept) && WithinBudget(p, MixedCosts(kept, w, |kept|))
      && NetScore(p, kept, w) <= kept[0].net && (opt.Linear? ==> NetScore(p, kept, w) == kept[0].net)
  {
    var kept := Kept(p, atoms, topK);
    var w := WeightsOf(opt, kept, temperature, exp);
    WeightsAreConvex(opt, kept, temperature, exp);
    KeptIsHonest(p, atoms, topK);
    MixtureWithinBudget(p, kept, w);
    MixtureNeverBeatsLinear(p, atoms, topK, w);
    hide Honest, Weights, NetScore, MixedCosts, Kept;
  }

  lemma NoneFeasible(p: Problem, atoms: seq<Atom>)
    requires WellFormed(p, atoms)
    ensures Feasible(p, atoms) == [] <==> forall a :: a in atoms ==> !Meets(p, a)
  {
    hide Feasible, DotSparse;
    forall a | a in atoms ensures WithinBudget(p, a.costs) <==> Meets(p, a)
      ensures Meets(p, a) ==> Score(p, a) in Feasible(p, atoms)
    {
      assert WithinBudget(p, a.costs) <==> Meets(p, a);
      FeasibleMembers(p, atoms, Score(p, a));
    }
    if Feasible(p, atoms) != [] {
      FeasibleMembers(p, atoms, Feasible(p, atoms)[0]);
    }
  }

  lemma MixtureMeaning(p: Problem, atoms: seq<Atom>, opt: Optimizer, temperature: real, topK: int, exp: real -> real,
                       c: Candidate)
    requires WellFormed(p, atoms) && c.Mixture? && !opt.Unknown?
    requires c.kept == Kept(p, atoms, topK) && c.kept != [] && forall s :: s in c.kept ==> |s.atom.costs| == N_COSTS
    requires c.weights == WeightsOf(opt, c.kept, temperature, exp)
    requires c.response == Relaxed(c.kept, c.weights, |c.kept|)
    requires c.costs == MixedCosts(c.kept, c.weights, |c.kept|)
    requires c.lambda == DotSparse(p.normal, c.response) && c.net == c.lambda - Dot(p.penalties, c.costs)
    ensures IsMixture(p, atoms, opt, temperature, topK, exp, c)
  {
    hide IsRanking, ScoredAs, IsWeighting, IsBlend, Feasible, DotSparse, DotTo, WeightsOf, Relaxed, MixedCosts;
    RankingMeaning(p, atoms);
    WeightingMeaning(opt, c.kept, temperature, exp);
    BlendMeaning(c.kept, c.weights);
    ScoreMeaning(p, Scored(Atom("", c.response, c.costs, false), c.lambda, c.net));
  }

  /** One problem: score and rank the feasible atoms, weigh the best ones, and mix their responses and costs. */
  method Optimize(p: Problem, atoms: seq<Atom>, opt: Optimizer, temperature: real, topK: int, exp: real -> real)
    returns (c: Candidate)
    requires WellFormed(p, atoms)
    ensures c.Empty? <==> forall a :: a in atoms ==> !Meets(p, a)
    ensures c.Rejected? <==> !c.Empty? && opt.Unknown?
    ensures c.Mixture? ==> IsMixture(p, atoms, opt, temperature, topK, exp, c)
    ensures c.Mixture? ==>
      && c.kept == Kept(p, atoms, topK) && c.kept != [] && Honest(p, c.kept)
      && c.weights == WeightsOf(opt, c.kept, temperature, exp)
      && c.response == Relaxed(c.kept, c.weights, |c.kept|)
      && c.costs == MixedCosts(c.kept, c.weights, |c.kept|)
      && c.lambda == DotSparse(p.normal, c.response) && c.net == NetScore(p, c.kept, c.weights)
    ensures c.Mixture? && Positive(exp) ==>
      && Weights(c.weights) && |p.limits| == |c.costs| == N_COSTS && WithinBudget(p, c.costs)
      && c.net <= c.kept[0].net && (opt.Linear? ==> c.net == c.kept[0].net)
      && forall a :: a in atoms && WithinBudget(p, a.costs) ==> Score(p, a).net <= c.kept[0].net
  {
    hide DotSparse, Feasible, Honest, WeightsOf, Relaxed, MixedCosts, Sorting.Sort, DotTo, Weights;
    hide WithinBudget, Positive, Score, Meets, IsMixture;
    KeptIsHonest(p, atoms, topK);
    HonestCosts(p, Kept(p, atoms, topK));
    FirstIsBestOfAll(p, atoms, topK);
    NoneFeasible(p, atoms);
    var scored := ScoreFeasible(p, atoms);
    if scored == [] {
      return Empty;
    }
    var ranked := Sorting.Sort(scored, Ahead);
    var kept := ranked[..KeptCount(topK, |ranked|)];
    if opt.Unknown? {
      return Rejected;
    }
    if Positive(exp) {
      MixtureIsSound(p, atoms, opt, temperature, topK, exp);
    }
    var w := WeightsOf(opt, kept, temperature, exp);
    var response, costs := Mix(kept, w);
    var lambda := ComputeDot(p.normal, response);
    c := Mixture(kept, w, response, costs, lambda, lambda - Dot(p.penalties, costs));
    MixtureMeaning(p, atoms, opt, temperature, topK, exp, c);
  }
}
