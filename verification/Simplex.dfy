/** Sort-and-threshold projection onto the capped nonnegative simplex
    (lean_rgc/coker.py, _project_simplex_l1_nonneg), over exact reals. */
module Simplex {
  import opened Vectors
  import opened Options
  import opened Sorting

  predicate Ge(a: real, b: real) { a >= b }

  function Clip(v: Vec, theta: real): (r: Vec)
    ensures |r| == |v|
  {
    seq(|v|, i requires 0 <= i < |v| => if v[i] - theta >= 0.0 then v[i] - theta else 0.0)
  }

  /** rho_candidates[k]: u[k] - (cssv[k] - m) / (k + 1) > 0 */
  predicate Candidate(u: Vec, m: real, k: nat)
    requires k < |u|
  {
    AboveMean(u[k], SumTo(u, k + 1), m, k)
  }

  predicate AboveMean(value: real, cumulative: real, m: real, k: nat) {
    value - (cumulative - m) / ((k + 1) as real) > 0.0
  }

  /** Position after the last candidate among the first n, or 0 when there is none. */
  function LastCandidate(u: Vec, m: real, n: nat): (r: nat)
    requires n <= |u|
    ensures r <= n
  {
    if n == 0 then 0 else if Candidate(u, m, n - 1) then n else LastCandidate(u, m, n - 1)
  }

  /** The threshold computed from the values sorted in decreasing order. */
  function Theta(u: Vec, m: real): real
    requires |u| > 0
  {
    var r := LastCandidate(u, m, |u|);
    if r == 0 then SumTo(u, |u|) / (|u| as real)
    else (SumTo(u, r) - m) / (r as real)
  }

  function Project(x: Vec, maxMass: Option<real>): (p: Vec)
    ensures |p| == |x|
  {
    var y := Clip(x, 0.0);
    if maxMass.None? || Sum(y) <= maxMass.value then y
    else if maxMass.value <= 0.0 then Zeros(|y|)
    else Clip(y, Theta(Sort(y, Ge), maxMass.value))
  }

  ghost predicate Feasible(z: Vec, maxMass: Option<real>) {
    AllNonneg(z) && (maxMass.Some? ==> Sum(z) <= maxMass.value)
  }

  // ----- The candidates form a nonempty prefix -----

  ghost predicate Descending(u: Vec) { forall i, j :: 0 <= i < j < |u| ==> u[i] >= u[j] }

  /** Total amount by which the first n values exceed c. */
  ghost function Excess(u: Vec, c: real, n: nat): real
    requires n <= |u|
  {
    if n == 0 then 0.0 else Excess(u, c, n - 1) + (u[n - 1] - c)
  }

  lemma {:induction false} ExcessForm(u: Vec, c: real, n: nat)
    requires n <= |u|
    ensures Excess(u, c, n) == SumTo(u, n) - (n as real) * c
  {
    if n == 0 {
    } else {
      ExcessForm(u, c, n - 1);
      assert n as real == (n - 1) as real + 1.0;
      assert (n as real) * c == ((n - 1) as real) * c + c;
    }
  }

  lemma {:induction false} ExcessMonotone(u: Vec, c: real, d: real, n: nat)
    requires n <= |u|
    ensures c <= d ==> Excess(u, c, n) >= Excess(u, d, n)
    ensures c < d && n > 0 ==> Excess(u, c, n) > Excess(u, d, n)
  {
    if n == 0 {
    } else {
      ExcessMonotone(u, c, d, n - 1);
    }
  }

  lemma AboveMeanScalar(a: real, s: real, m: real, k: nat, e: real)
    requires e == s - ((k + 1) as real) * a
    ensures AboveMean(a, s, m, k) <==> e < m
  {
    var c := (k + 1) as real;
    var q := (s - m) / c;
    QuotTimes(s - m, c);
    assert c * q == s - m;
    ProductSign(c, a - q);
    assert c * (a - q) == c * a - c * q;
  }

  /** The candidate test without its division: the values before k exceed u[k] by less than m. */
  lemma CandidateIff(u: Vec, m: real, k: nat)
    requires k < |u|
    ensures Candidate(u, m, k) <==> Excess(u, u[k], k) < m
  {
    hide AboveMean;
    ExcessForm(u, u[k], k + 1);
    AboveMeanScalar(u[k], SumTo(u, k + 1), m, k, Excess(u, u[k], k + 1));
    assert Excess(u, u[k], k + 1) == Excess(u, u[k], k);
  }

  /** The excess over u[k] never decreases with k, so a non-candidate is never followed by a
      candidate; position 0 is always a candidate when m > 0. */
  lemma CandidatesArePrefix(u: Vec, m: real, k: nat)
    requires Descending(u) && k + 1 < |u|
    ensures Candidate(u, m, k + 1) ==> Candidate(u, m, k)
  {
    hide Candidate;
    CandidateIff(u, m, k);
    CandidateIff(u, m, k + 1);
    ExcessMonotone(u, u[k + 1], u[k], k);
  }

  lemma FirstIsCandidate(u: Vec, m: real)
    requires |u| > 0 && m > 0.0
    ensures Candidate(u, m, 0)
    ensures LastCandidate(u, m, |u|) > 0
  {
    CandidateIff(u, m, 0);
    CandidateIsCounted(u, m, 0, |u|);
  }

  lemma {:induction false} CandidateIsCounted(u: Vec, m: real, k: nat, n: nat)
    requires k < n <= |u| && Candidate(u, m, k)
    ensures LastCandidate(u, m, n) > k
  {
    if Candidate(u, m, n - 1) {
    } else {
      CandidateIsCounted(u, m, k, n - 1);
    }
  }

  lemma {:induction false} LastCandidateSpec(u: Vec, m: real, n: nat)
    requires n <= |u| && Descending(u)
    ensures var r := LastCandidate(u, m, n);
            && (forall k :: 0 <= k < r ==> Candidate(u, m, k))
            && (forall k :: r <= k < n ==> !Candidate(u, m, k))
  {
    if n == 0 {
    } else {
      if Candidate(u, m, n - 1) { CandidateRunsBack(u, m, n - 1); } else { LastCandidateSpec(u, m, n - 1); }
    }
  }

  lemma {:induction false} CandidateRunsBack(u: Vec, m: real, k: nat)
    requires k < |u| && Descending(u) && Candidate(u, m, k)
    ensures forall i :: 0 <= i <= k ==> Candidate(u, m, i)
  {
    if k == 0 {
    } else {
      CandidatesArePrefix(u, m, k - 1);
      CandidateRunsBack(u, m, k - 1);
    }
  }

  // ----- Mass -----

  lemma {:induction false} ClipSumPrefix(u: Vec, theta: real, n: nat)
    requires n <= |u| && forall i :: 0 <= i < n ==> u[i] >= theta
    ensures SumTo(Clip(u, theta), n) == Excess(u, theta, n)
  {
    if n == 0 {
    } else {
      ClipSumPrefix(u, theta, n - 1);
    }
  }

  lemma {:induction false} ClipSumTail(u: Vec, theta: real, r: nat, n: nat)
    requires r <= n <= |u| && forall i :: r <= i < n ==> u[i] <= theta
    ensures SumTo(Clip(u, theta), n) == SumTo(Clip(u, theta), r)
  {
    if n == r {
    } else {
      ClipSumTail(u, theta, r, n - 1);
    }
  }

  lemma {:induction false} ClipSumInsert(x: real, s: Vec, theta: real)
    ensures Sum(Clip(Insert(x, s, Ge), theta)) == Sum(Clip([x], theta)) + Sum(Clip(s, theta))
  {
    var c := Clip([x], theta)[0];
    SumCons(c, [], 0);
    assert Clip([x], theta) == [c] + [];
    if s == [] {
    } else if Ge(x, s[0]) {
      assert Clip([x] + s, theta) == [c] + Clip(s, theta);
      SumCons(c, Clip(s, theta), |s|);
    } else {
      var h, t, it := Clip(s, theta)[0], s[1..], Insert(x, s[1..], Ge);
      ClipSumInsert(x, t, theta);
      assert Clip(s, theta) == [h] + Clip(t, theta);
      SumCons(h, Clip(t, theta), |t|);
      assert Clip([s[0]] + it, theta) == [h] + Clip(it, theta);
      SumCons(h, Clip(it, theta), |it|);
    }
  }

  /** Sorting does not change the mass that survives a threshold. */
  lemma {:induction false} ClipSumSort(s: Vec, theta: real)
    ensures Sum(Clip(Sort(s, Ge), theta)) == Sum(Clip(s, theta))
  {
    if s == [] {
    } else {
      ClipSumInsert(s[0], Sort(s[1..], Ge), theta);
      ClipSumSort(s[1..], theta);
      var h := Clip(s, theta)[0];
      assert Clip(s, theta) == [h] + Clip(s[1..], theta);
      SumCons(h, Clip(s[1..], theta), |s| - 1);
      assert Clip([s[0]], theta) == [h] + [];
      SumCons(h, [], 0);
    }
  }

  lemma SortDescending(y: Vec)
    ensures Descending(Sort(y, Ge)) && multiset(Sort(y, Ge)) == multiset(y)
    ensures AllNonneg(y) ==> AllNonneg(Sort(y, Ge))
  {
    var u := Sort(y, Ge);
    SortIsSorted(y, Ge);
    assert forall i :: 0 <= i < |u| ==> Ge(u[i], u[i]);
    forall i | AllNonneg(y) && 0 <= i < |u| ensures u[i] >= 0.0 {
      assert u[i] in multiset(u);
      assert u[i] in y;
    }
  }

  lemma ThetaExcess(u: Vec, m: real)
    requires LastCandidate(u, m, |u|) > 0
    ensures Excess(u, Theta(u, m), LastCandidate(u, m, |u|)) == m
  {
    var r := LastCandidate(u, m, |u|);
    ExcessForm(u, Theta(u, m), r);
    QuotTimes(SumTo(u, r) - m, r as real);
  }

  /** In the capped branch the threshold is nonnegative and separates the candidates from the rest. */
  lemma ThetaSeparates(u: Vec, m: real)
    requires Descending(u) && AllNonneg(u) && m > 0.0 && |u| > 0 && Sum(u) > m
    ensures var r, t := LastCandidate(u, m, |u|), Theta(u, m);
            0 < r && t >= 0.0 && u[r - 1] >= t && (r < |u| ==> u[r] <= t)
  {
    hide Candidate, Theta;
    var r, t := LastCandidate(u, m, |u|), Theta(u, m);
    FirstIsCandidate(u, m);
    LastCandidateSpec(u, m, |u|);
    ThetaExcess(u, m);
    assert Candidate(u, m, r - 1);
    CandidateIff(u, m, r - 1);
    ExcessMonotone(u, u[r - 1], t, r);
    if r < |u| {
      assert !Candidate(u, m, r);
      CandidateIff(u, m, r);
      ExcessMonotone(u, t, u[r], r);
    } else {
      ExcessForm(u, 0.0, r);
      ExcessMonotone(u, t, 0.0, r);
    }
  }

  /** ... and it leaves mass exactly m. */
  lemma ThetaBalances(u: Vec, m: real)
    requires Descending(u) && AllNonneg(u) && m > 0.0 && |u| > 0 && Sum(u) > m
    ensures Theta(u, m) >= 0.0 && Sum(Clip(u, Theta(u, m))) == m
  {
    hide Candidate, Theta;
    var r, t := LastCandidate(u, m, |u|), Theta(u, m);
    ThetaSeparates(u, m);
    ThetaExcess(u, m);
    forall i | 0 <= i < r ensures u[i] >= t { assert i < r - 1 ==> u[i] >= u[r - 1]; }
    ClipSumPrefix(u, t, r);
    forall i | r <= i < |u| ensures u[i] <= t { assert i > r ==> u[r] >= u[i]; }
    ClipSumTail(u, t, r, |u|);
  }

  /** The value subtracted from max(x, 0) in every branch that subtracts one. */
  ghost function Shift(x: Vec, maxMass: Option<real>): real {
    var y := Clip(x, 0.0);
    if maxMass.None? || Sum(y) <= maxMass.value || maxMass.value <= 0.0 then 0.0
    else Theta(Sort(y, Ge), maxMass.value)
  }

  lemma ClipZero(y: Vec)
    requires AllNonneg(y)
    ensures Clip(y, 0.0) == y
  {
  }

  /** The capped branch. */
  lemma CappedMass(y: Vec, m: real)
    requires AllNonneg(y) && m > 0.0 && Sum(y) > m
    ensures LastCandidate(Sort(y, Ge), m, |y|) > 0
    ensures Theta(Sort(y, Ge), m) >= 0.0
    ensures Sum(Clip(y, Theta(Sort(y, Ge), m))) == m
  {
    hide Theta, Candidate, LastCandidate;
    var u := Sort(y, Ge);
    SortDescending(y);
    ClipSumSort(y, 0.0);
    ClipZero(u); ClipZero(y);
    ThetaBalances(u, m);
    FirstIsCandidate(u, m);
    ClipSumSort(y, Theta(u, m));
  }

  /** The result is feasible exactly when the cap allows any point at all; when the positive
      part of x exceeds the cap the whole mass is used, and the fallback threshold is never taken. */
  lemma ProjectMass(x: Vec, maxMass: Option<real>)
    ensures Feasible(Project(x, maxMass), maxMass) <==> maxMass.None? || maxMass.value >= 0.0
    ensures maxMass.Some? && maxMass.value >= 0.0 && Sum(Clip(x, 0.0)) > maxMass.value ==>
              Sum(Project(x, maxMass)) == maxMass.value
    ensures maxMass.Some? && maxMass.value > 0.0 && Sum(Clip(x, 0.0)) > maxMass.value ==>
              LastCandidate(Sort(Clip(x, 0.0), Ge), maxMass.value, |x|) > 0
    ensures Shift(x, maxMass) >= 0.0
  {
    hide Theta, Candidate, LastCandidate, SumTo;
    var y := Clip(x, 0.0);
    SumZeros(|y|, |y|);
    SumNonnegTo(y, |y|);
    if maxMass.Some? && Sum(y) > maxMass.value && maxMass.value > 0.0 {
      CappedMass(y, maxMass.value);
    }
  }

  // ----- Optimality -----

  lemma ShiftBoundEntry(a: real, b: real, c: real, t: real, u: real, v: real)
    requires c >= 0.0 && t >= 0.0 && u == a - b && v == c - b
    requires b == 0.0 || b == a - t
    requires b == 0.0 ==> a <= t
    ensures u * v <= t * v
  {
    if b == 0.0 { MulMono(v, u, t); }
  }

  lemma ShiftBoundAt(x: Vec, p: Vec, z: Vec, t: real, i: nat)
    requires i < |x| == |p| == |z| && AllNonneg(z) && t >= 0.0
    requires p == Clip(Clip(x, 0.0), t)
    ensures Sub(x, p)[i] * Sub(z, p)[i] <= Scale(t, Sub(z, p))[i]
  {
    ShiftBoundEntry(x[i], p[i], z[i], t, Sub(x, p)[i], Sub(z, p)[i]);
  }

  lemma {:induction false} ShiftBoundTo(x: Vec, p: Vec, z: Vec, t: real, n: nat)
    requires |x| == |p| == |z| && n <= |x| && AllNonneg(z) && t >= 0.0
    requires p == Clip(Clip(x, 0.0), t)
    ensures DotTo(Sub(x, p), Sub(z, p), n) <= SumTo(Scale(t, Sub(z, p)), n)
  {
    if n == 0 {
    } else {
      hide Clip, Sub, Scale;
      ShiftBoundTo(x, p, z, t, n - 1);
      ShiftBoundAt(x, p, z, t, n - 1);
    }
  }

  /** Whenever a shift is subtracted, it is a threshold that leaves exactly the capped mass. */
  lemma ProjectIsClip(x: Vec, maxMass: Option<real>)
    requires maxMass.Some? ==> maxMass.value > 0.0 || Sum(Clip(x, 0.0)) <= maxMass.value
    ensures var p, t := Project(x, maxMass), Shift(x, maxMass);
            && t >= 0.0 && p == Clip(Clip(x, 0.0), t)
            && (t > 0.0 ==> maxMass.Some? && Sum(p) == maxMass.value)
  {
    ProjectMass(x, maxMass);
    ClipZero(Clip(x, 0.0));
  }

  lemma ProductNonpos(t: real, g: real)
    requires t >= 0.0 && (t > 0.0 ==> g <= 0.0)
    ensures t * g <= 0.0
  {
    if t > 0.0 { MulMono(t, g, 0.0); }
  }

  lemma ClipVariational(x: Vec, p: Vec, z: Vec, t: real)
    requires |x| == |p| == |z| && AllNonneg(z) && t >= 0.0
    requires p == Clip(Clip(x, 0.0), t) && (t > 0.0 ==> Sum(z) <= Sum(p))
    ensures Dot(Sub(x, p), Sub(z, p)) <= 0.0
  {
    ShiftBoundTo(x, p, z, t, |x|);
    SumScaleTo(t, Sub(z, p), |x|);
    SumSubTo(z, p, |x|);
    ProductNonpos(t, SumTo(Sub(z, p), |x|));
  }

  /** Obtuse-angle criterion: no feasible point lies on the x side of the projection. */
  lemma ProjectVariational(x: Vec, maxMass: Option<real>, z: Vec)
    requires |z| == |x| && Feasible(z, maxMass)
    ensures Dot(Sub(x, Project(x, maxMass)), Sub(z, Project(x, maxMass))) <= 0.0
  {
    var p := Project(x, maxMass);
    SumNonnegTo(z, |z|);
    if maxMass.Some? && Sum(Clip(x, 0.0)) > maxMass.value && maxMass.value <= 0.0 {
      assert z == Zeros(|z|) == p;
      assert Sub(z, p) == Zeros(|z|);
      DotZeros(Sub(x, p));
    } else {
      ProjectIsClip(x, maxMass);
      ClipVariational(x, p, z, Shift(x, maxMass));
    }
  }

  /** The projection is a nearest feasible point, with the squared distance to every other
      feasible point as the margin; so it is the only nearest point. */
  lemma ProjectNearest(x: Vec, maxMass: Option<real>, z: Vec)
    requires |z| == |x| && Feasible(z, maxMass)
    ensures NormSq(Sub(x, z)) >= NormSq(Sub(x, Project(x, maxMass))) + NormSq(Sub(z, Project(x, maxMass)))
  {
    var p := Project(x, maxMass);
    ProjectVariational(x, maxMass, z);
    assert Sub(x, z) == Sub(Sub(x, p), Sub(z, p));
    NormSqSub(Sub(x, p), Sub(z, p));
  }

  lemma ZeroDifference(p: Vec, q: Vec)
    requires |p| == |q| && NormSq(Sub(p, q)) <= 0.0
    ensures p == q
  {
    hide NormSq;
    ZeroNormIsZero(Sub(p, q));
    forall i | 0 <= i < |p| ensures p[i] == q[i] { assert Sub(p, q)[i] == 0.0; }
  }

  lemma NearestIsUnique(x: Vec, p: Vec, q: Vec)
    requires |x| == |p| == |q| && Dot(Sub(x, p), Sub(q, p)) <= 0.0
    requires NormSq(Sub(x, p)) >= NormSq(Sub(x, q)) + NormSq(Sub(p, q))
    ensures p == q
  {
    hide DotTo;
    assert Sub(x, q) == Sub(Sub(x, p), Sub(q, p));
    NormSqSub(Sub(x, p), Sub(q, p));
    NormSqNonneg(Sub(q, p));
    ZeroDifference(p, q);
  }

  /** A feasible point satisfying the obtuse-angle criterion is the projection. */
  lemma VariationalIsProject(x: Vec, maxMass: Option<real>, p: Vec)
    requires |p| == |x| && Feasible(p, maxMass)
    requires forall z: Vec :: |z| == |x| && Feasible(z, maxMass) ==> Dot(Sub(x, p), Sub(z, p)) <= 0.0
    ensures p == Project(x, maxMass)
  {
    hide Dot, Project;
    SumNonnegTo(p, |p|);
    ProjectMass(x, maxMass);
    ProjectNearest(x, maxMass, p);
    NearestIsUnique(x, p, Project(x, maxMass));
  }

  /** Any feasible point at least as near as the projection equals it. */
  lemma ProjectUnique(x: Vec, maxMass: Option<real>, z: Vec)
    requires |z| == |x| && Feasible(z, maxMass)
    requires NormSq(Sub(x, z)) <= NormSq(Sub(x, Project(x, maxMass)))
    ensures z == Project(x, maxMass)
  {
    hide NormSq, Project;
    ProjectNearest(x, maxMass, z);
    ZeroDifference(z, Project(x, maxMass));
  }

  lemma ObtusePairContracts(x: Vec, y: Vec, p: Vec, q: Vec)
    requires |x| == |y| == |p| == |q|
    requires Dot(Sub(x, p), Sub(q, p)) <= 0.0 && Dot(Sub(y, q), Sub(p, q)) <= 0.0
    ensures NormSq(Sub(p, q)) <= Dot(Sub(p, q), Sub(x, y))
  {
    hide DotTo;
    var s, d := Sub(p, q), Sub(x, y);
    assert Sub(q, p) == Scale(-1.0, s);
    DotScale(-1.0, s, Sub(x, p));
    assert Sub(Sub(x, p), Sub(y, q)) == Sub(d, s);
    DotSub(Sub(x, p), Sub(y, q), s);
    DotSub(d, s, s);
    DotComm(d, s);
  }

  lemma ContractionBound(s: Vec, d: Vec)
    requires |s| == |d| && NormSq(s) <= Dot(s, d)
    ensures NormSq(s) <= NormSq(d)
  {
    hide DotTo;
    DotComm(d, s);
    NormSqSub(d, s);
    NormSqNonneg(Sub(d, s));
  }

  /** A negative cap, which no point meets, yields the zero vector. */
  lemma NegativeCap(x: Vec, maxMass: Option<real>)
    requires maxMass.Some? && maxMass.value < 0.0
    ensures Project(x, maxMass) == Zeros(|x|)
  {
    SumNonnegTo(Clip(x, 0.0), |x|);
  }

  /** Firm non-expansiveness, for every cap, and hence the Lipschitz bound. */
  lemma ProjectNonExpansive(x: Vec, y: Vec, maxMass: Option<real>)
    requires |x| == |y|
    ensures NormSq(Sub(Project(x, maxMass), Project(y, maxMass)))
            <= Dot(Sub(Project(x, maxMass), Project(y, maxMass)), Sub(x, y))
    ensures NormSq(Sub(Project(x, maxMass), Project(y, maxMass))) <= NormSq(Sub(x, y))
  {
    hide Project, DotTo;
    var p, q := Project(x, maxMass), Project(y, maxMass);
    if maxMass.Some? && maxMass.value < 0.0 {
      NegativeCap(x, maxMass); NegativeCap(y, maxMass);
      assert Sub(p, q) == Zeros(|x|);
      DotZeros(Sub(x, y)); DotZeros(Zeros(|x|));
    } else {
      ProjectMass(x, maxMass); ProjectMass(y, maxMass);
      ProjectVariational(x, maxMass, q);
      ProjectVariational(y, maxMass, p);
      ObtusePairContracts(x, y, p, q);
    }
    ContractionBound(Sub(p, q), Sub(x, y));
  }
}
