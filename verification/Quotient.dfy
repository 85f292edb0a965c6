/** Response-quotient discovery (lean_rgc/quotient.py, ResponseQuotientDiscovery.discover): actions
    whose weighted response rows lie within a tolerance are merged, and the classes are reported in
    order of their first action. */
module Quotient {
  import opened Options
  import opened UnionFind
  import opened Vectors

  /** Response rows with their coordinate weights; distances are compared squared. */
  datatype Cloud = Cloud(rows: seq<Vec>, weights: Vec, tolerance: real) {
    predicate Shaped() { forall i :: 0 <= i < |rows| ==> |rows[i]| == |weights| }

    /** |(R[i] - R[j]) * W| <= tolerance */
    predicate Near(i: nat, j: nat)
      requires Shaped() && i < |rows| && j < |rows|
    {
      tolerance >= 0.0 && NormSq(Times(Sub(rows[i], rows[j]), weights)) <= tolerance * tolerance
    }
  }

  lemma NearSymmetric(c: Cloud, i: nat, j: nat)
    requires c.Shaped() && i < |c.rows| && j < |c.rows|
    ensures c.Near(i, j) == c.Near(j, i)
  {
    hide DotTo;
    var a, b := Times(Sub(c.rows[i], c.rows[j]), c.weights), Times(Sub(c.rows[j], c.rows[i]), c.weights);
    forall k | 0 <= k < |a| ensures b[k] == Scale(-1.0, a)[k] {
      assert (c.rows[j][k] - c.rows[i][k]) * c.weights[k] == -((c.rows[i][k] - c.rows[j][k]) * c.weights[k]);
    }
    assert b == Scale(-1.0, a);
    NormSqScale(-1.0, a);
  }

  /** A chain of actions in which each is near the next. */
  ghost predicate Chain(c: Cloud, path: seq<nat>)
    requires c.Shaped()
  {
    && |path| > 0
    && (forall k :: 0 <= k < |path| ==> path[k] < |c.rows|)
    && (forall k :: 0 <= k < |path| - 1 ==> c.Near(path[k], path[k + 1]))
  }

  ghost predicate Connected(c: Cloud, i: nat, j: nat)
    requires c.Shaped()
  {
    exists path: seq<nat> :: Chain(c, path) && path[0] == i && path[|path| - 1] == j
  }

  lemma ConnectedRefl(c: Cloud, i: nat)
    requires c.Shaped() && i < |c.rows|
    ensures Connected(c, i, i)
  {
    assert Chain(c, [i]);
  }

  lemma ConnectedNear(c: Cloud, i: nat, j: nat)
    requires c.Shaped() && i < |c.rows| && j < |c.rows| && c.Near(i, j)
    ensures Connected(c, i, j)
  {
    assert Chain(c, [i, j]);
  }

  lemma ConnectedTrans(c: Cloud, i: nat, j: nat, k: nat)
    requires c.Shaped() && Connected(c, i, j) && Connected(c, j, k)
    ensures Connected(c, i, k)
  {
    var p: seq<nat> :| Chain(c, p) && p[0] == i && p[|p| - 1] == j;
    var q: seq<nat> :| Chain(c, q) && q[0] == j && q[|q| - 1] == k;
    var r := p + q[1..];
    assert forall m :: 0 <= m < |q| ==> r[|p| - 1 + m] == q[m];
    forall m | 0 <= m < |r| - 1 ensures c.Near(r[m], r[m + 1]) {
      if m >= |p| - 1 {
        var n := m - (|p| - 1);
        assert r[m] == q[n] && r[m + 1] == q[n + 1];
      }
    }
    assert Chain(c, r);
  }

  lemma {:induction false} ConnectedSym(c: Cloud, i: nat, j: nat)
    requires c.Shaped() && Connected(c, i, j)
    ensures Connected(c, j, i)
  {
    var p: seq<nat> :| Chain(c, p) && p[0] == i && p[|p| - 1] == j;
    var r := seq(|p|, m requires 0 <= m < |p| => p[|p| - 1 - m]);
    forall m | 0 <= m < |r| - 1 ensures c.Near(r[m], r[m + 1]) {
      var n := |p| - 2 - m;
      NearSymmetric(c, p[n], p[n + 1]);
    }
    assert Chain(c, r);
  }

  /** A naming of classes that agrees on near actions agrees along every chain. */
  lemma {:induction false} ChainKeepsClass(c: Cloud, cls: seq<nat>, path: seq<nat>)
    requires c.Shaped() && |cls| == |c.rows| && Chain(c, path)
    requires forall i, j :: 0 <= i < |cls| && 0 <= j < |cls| && c.Near(i, j) ==> cls[i] == cls[j]
    ensures cls[path[0]] == cls[path[|path| - 1]]
  {
    if |path| == 1 {
    } else {
      assert c.Near(path[0], path[1]);
      ChainKeepsClass(c, cls, path[1..]);
    }
  }

  /** Entry i of the list gives the class of action i; equal entries mean connected actions. */
  ghost predicate Classifies(c: Cloud, cls: seq<nat>)
    requires c.Shaped()
  {
    && |cls| == |c.rows|
    && forall i, j :: 0 <= i < |cls| && 0 <= j < |cls| ==> (cls[i] == cls[j] <==> Connected(c, i, j))
  }

  // ----- Merging -----

  /** Pairs (a, b) with a < b that the double loop has visited when it stands at (i, j). */
  predicate Visited(i: nat, j: nat, a: nat, b: nat) { a < b && (a < i || (a == i && b < j)) }

  /** Every action is connected to the representative of its class, and visited near pairs share one. */
  ghost predicate Merging(c: Cloud, cls: seq<nat>, i: nat, j: nat)
    requires c.Shaped()
  {
    && |cls| == |c.rows|
    && (forall x :: 0 <= x < |cls| ==> Connected(c, x, cls[x]))
    && (forall a, b :: 0 <= a < |cls| && 0 <= b < |cls| && Visited(i, j, a, b) && c.Near(a, b) ==> cls[a] == cls[b])
  }

  lemma MergingStart(c: Cloud)
    requires c.Shaped()
    ensures Merging(c, seq(|c.rows|, i => i), 0, 0)
  {
    forall x | 0 <= x < |c.rows| ensures Connected(c, x, x) { ConnectedRefl(c, x); }
  }

  lemma MergingStep(c: Cloud, cls: seq<nat>, i: nat, j: nat)
    requires c.Shaped() && Merging(c, cls, i, j) && i < j < |c.rows|
    ensures Merging(c, if c.Near(i, j) then Merged(cls, i, j) else cls, i, j + 1)
  {
    hide Connected, Chain;
    if c.Near(i, j) {
      ConnectedNear(c, i, j);
      ConnectedSym(c, i, j);
      ConnectedSym(c, j, cls[j]);
      ConnectedTrans(c, j, i, cls[i]);
      ConnectedTrans(c, cls[j], j, cls[i]);
      forall x | 0 <= x < |cls| ensures Connected(c, x, Merged(cls, i, j)[x]) {
        if cls[x] == cls[j] { ConnectedTrans(c, x, cls[j], cls[i]); }
      }
    }
  }

  lemma MergingDone(c: Cloud, cls: seq<nat>, i: nat)
    requires c.Shaped() && i >= |c.rows| && Merging(c, cls, i, 0)
    ensures Classifies(c, cls)
  {
    hide Connected;
    forall a, b | 0 <= a < |cls| && 0 <= b < |cls| && c.Near(a, b) ensures cls[a] == cls[b] {
      NearSymmetric(c, a, b);
      assert Visited(i, 0, a, b) || Visited(i, 0, b, a) || a == b;
    }
    forall a, b | 0 <= a < |cls| && 0 <= b < |cls| ensures cls[a] == cls[b] <==> Connected(c, a, b) {
      if cls[a] == cls[b] {
        ConnectedSym(c, b, cls[b]);
        ConnectedTrans(c, a, cls[a], b);
      }
      if Connected(c, a, b) { ConnectedSameClass(c, cls, a, b); }
    }
  }

  lemma ConnectedSameClass(c: Cloud, cls: seq<nat>, a: nat, b: nat)
    requires c.Shaped() && |cls| == |c.rows| && Connected(c, a, b) && a < |cls| && b < |cls|
    requires forall i, j :: 0 <= i < |cls| && 0 <= j < |cls| && c.Near(i, j) ==> cls[i] == cls[j]
    ensures cls[a] == cls[b]
  {
    var path: seq<nat> :| Chain(c, path) && path[0] == a && path[|path| - 1] == b;
    ChainKeepsClass(c, cls, path);
  }

  /** The double loop over pairs: two actions end in one class exactly when a chain joins them. */
  method Merge(c: Cloud) returns (classes: Partition)
    requires c.Shaped()
    ensures fresh(classes) && fresh(classes.parent) && classes.Valid()
    ensures Classifies(c, classes.Classes())
  {
    hide Merging;
    var n := |c.rows|;
    classes := new Partition(n);
    MergingStart(c);
    var i := 0;
    while i < n
      invariant i <= n && fresh(classes) && fresh(classes.parent)
      invariant classes.Valid() && classes.parent.Length == n && Merging(c, classes.Classes(), i, 0)
    {
      var j := i + 1;
      MergingRow(c, classes.Classes(), i);
      while j < n
        invariant i < j <= n && fresh(classes) && fresh(classes.parent)
        invariant classes.Valid() && classes.parent.Length == n && Merging(c, classes.Classes(), i, j)
      {
        MergingStep(c, classes.Classes(), i, j);
        if c.Near(i, j) { classes.Union(i, j); }
        j := j + 1;
      }
      MergingRowDone(c, classes.Classes(), i);
      i := i + 1;
    }
    MergingDone(c, classes.Classes(), i);
  }

  lemma MergingRow(c: Cloud, cls: seq<nat>, i: nat)
    requires c.Shaped() && Merging(c, cls, i, 0)
    ensures Merging(c, cls, i, i + 1)
  {
    assert forall a: nat, b: nat :: Visited(i, i + 1, a, b) ==> Visited(i, 0, a, b);
  }

  lemma MergingRowDone(c: Cloud, cls: seq<nat>, i: nat)
    requires c.Shaped() && Merging(c, cls, i, |c.rows|)
    ensures Merging(c, cls, i + 1, 0)
  {
    assert forall a: nat, b: nat :: Visited(i + 1, 0, a, b) && b < |c.rows| ==> Visited(i, |c.rows|, a, b);
  }

  // ----- Grouping -----

  /** The positions below n in class r, in increasing order. */
  function Members(cls: seq<nat>, r: nat, n: nat): (m: seq<nat>)
    requires n <= |cls|
    ensures forall k :: 0 <= k < |m| ==> m[k] < n && cls[m[k]] == r
    ensures forall k, l :: 0 <= k < l < |m| ==> m[k] < m[l]
  {
    if n == 0 then [] else Members(cls, r, n - 1) + (if cls[n - 1] == r then [n - 1] else [])
  }

  /** The classes among the first n positions, in order of first appearance. */
  function FirstSeen(cls: seq<nat>, n: nat): (o: seq<nat>)
    requires n <= |cls|
  {
    if n == 0 then []
    else var o := FirstSeen(cls, n - 1); if cls[n - 1] in o then o else o + [cls[n - 1]]
  }

  lemma {:induction false} MembersComplete(cls: seq<nat>, n: nat, i: nat)
    requires i < n <= |cls|
    ensures i in Members(cls, cls[i], n)
  {
    if i == n - 1 {
    } else {
      MembersComplete(cls, n - 1, i);
    }
  }

  lemma {:induction false} MembersHead(cls: seq<nat>, r: nat, n: nat, n': nat)
    requires n <= n' <= |cls| && Members(cls, r, n) != []
    ensures Members(cls, r, n') != [] && Members(cls, r, n')[0] == Members(cls, r, n)[0]
  {
    if n == n' {
    } else {
      MembersHead(cls, r, n, n' - 1);
    }
  }

  /** The listed classes are inhabited and ordered by their first members. */
  ghost predicate Heads(cls: seq<nat>, o: seq<nat>, n: nat)
    requires n <= |cls|
  {
    && (forall k :: 0 <= k < |o| ==> Members(cls, o[k], n) != [])
    && (forall k, l :: 0 <= k < l < |o| ==> Members(cls, o[k], n)[0] < Members(cls, o[l], n)[0])
  }

  lemma HeadsExtend(cls: seq<nat>, o: seq<nat>, n: nat)
    requires 0 < n <= |cls| && Heads(cls, o, n - 1)
    ensures Heads(cls, o, n)
    ensures forall k :: 0 <= k < |o| ==> Members(cls, o[k], n)[0] < n - 1
  {
    hide Members;
    forall k | 0 <= k < |o|
      ensures Members(cls, o[k], n) != [] && Members(cls, o[k], n)[0] == Members(cls, o[k], n - 1)[0]
    {
      MembersHead(cls, o[k], n - 1, n);
    }
  }

  lemma HeadsAppend(cls: seq<nat>, o: seq<nat>, n: nat)
    requires 0 < n <= |cls| && Heads(cls, o, n) && Members(cls, cls[n - 1], n) == [n - 1]
    requires forall k :: 0 <= k < |o| ==> Members(cls, o[k], n)[0] < n - 1
    ensures Heads(cls, o + [cls[n - 1]], n)
  {
    hide Members;
  }

  lemma HeadsEmpty(cls: seq<nat>)
    ensures Heads(cls, [], 0)
  {
  }

  lemma FirstSeenUnfold(cls: seq<nat>, n: nat)
    requires n <= |cls|
    ensures n == 0 ==> FirstSeen(cls, n) == []
    ensures n > 0 ==>
              var o := FirstSeen(cls, n - 1);
              FirstSeen(cls, n) == if cls[n - 1] in o then o else o + [cls[n - 1]]
  {
  }

  /** Classes appear once each, all of them, ordered by their first members. */
  lemma {:induction false} FirstSeenSpec(cls: seq<nat>, n: nat)
    requires n <= |cls|
    ensures forall i :: 0 <= i < n ==> cls[i] in FirstSeen(cls, n)
    ensures Heads(cls, FirstSeen(cls, n), n)
  {
    hide Heads, Members, FirstSeen;
    FirstSeenUnfold(cls, n);
    if n == 0 {
      HeadsEmpty(cls);
    } else {
      var o := FirstSeen(cls, n - 1);
      FirstSeenSpec(cls, n - 1);
      HeadsExtend(cls, o, n);
      if cls[n - 1] !in o {
        FreshClass(cls, n - 1);
        HeadsAppend(cls, o, n);
      }
    }
  }

  lemma {:induction false} NoMembers(cls: seq<nat>, r: nat, n: nat)
    requires n <= |cls| && forall i :: 0 <= i < n ==> cls[i] != r
    ensures Members(cls, r, n) == []
  {
    if n == 0 {
    } else {
      NoMembers(cls, r, n - 1);
    }
  }

  lemma FreshClass(cls: seq<nat>, n: nat)
    requires n < |cls| && forall i :: 0 <= i < n ==> cls[i] != cls[n]
    ensures Members(cls, cls[n], n + 1) == [n] && Members(cls, cls[n], n) == []
  {
    NoMembers(cls, cls[n], n);
  }

  /** The dictionary of groups after n positions, with its keys in insertion order. */
  ghost predicate Grouping(cls: seq<nat>, n: nat, order: seq<nat>, groups: map<nat, seq<nat>>)
    requires n <= |cls|
  {
    && order == FirstSeen(cls, n)
    && (forall r :: r in groups <==> r in order)
    && (forall r :: r in groups ==> groups[r] == Members(cls, r, n))
  }

  lemma GroupingStep(cls: seq<nat>, n: nat, order: seq<nat>, groups: map<nat, seq<nat>>)
    requires n < |cls| && Grouping(cls, n, order, groups)
    ensures var r := cls[n];
            Grouping(cls, n + 1, if r in groups then order else order + [r],
                     groups[r := (if r in groups then groups[r] else []) + [n]])
  {
    hide FirstSeen, Heads, Members;
    FirstSeenUnfold(cls, n + 1);
    FirstSeenSpec(cls, n);
    var r := cls[n];
    MembersUnfold(cls, r, n);
    if r in groups {
      assert r in FirstSeen(cls, n);
    } else {
      forall i | 0 <= i < n ensures cls[i] != r { assert cls[i] in FirstSeen(cls, n); }
      FreshClass(cls, n);
    }
    forall x | x in groups && x != r ensures Members(cls, x, n + 1) == groups[x] { MembersUnfold(cls, x, n); }
  }

  lemma MembersUnfold(cls: seq<nat>, r: nat, n: nat)
    requires n < |cls|
    ensures Members(cls, r, n + 1) == Members(cls, r, n) + (if cls[n] == r then [n] else [])
  {
  }

  datatype Component = Component(id: nat, indices: seq<nat>, members: seq<string>, shadow: bool)

  datatype Outcome = Components(components: seq<Component>) | NotTwoDimensional | LengthMismatch | WeightMismatch

  function Named(ids: seq<string>, at: seq<nat>): (r: seq<string>)
    requires forall k :: 0 <= k < |at| ==> at[k] < |ids|
    ensures |r| == |at|
  {
    seq(|at|, k requires 0 <= k < |at| => ids[at[k]])
  }

  ghost predicate Covered(comps: seq<Component>, i: nat) {
    exists k :: 0 <= k < |comps| && i in comps[k].indices
  }

  /** The components are numbered from 0, list their actions in order, are shadows exactly when they
      hold several actions, cover every action, hold two actions together exactly when a chain joins
      them, and are ordered by their first actions. */
  ghost predicate IsQuotient(c: Cloud, ids: seq<string>, comps: seq<Component>)
    requires c.Shaped() && |ids| == |c.rows|
  {
    && (forall k :: 0 <= k < |comps| ==>
          && comps[k].id == k && comps[k].indices != []
          && (forall m :: 0 <= m < |comps[k].indices| ==> comps[k].indices[m] < |ids|)
          && (forall m, l :: 0 <= m < l < |comps[k].indices| ==> comps[k].indices[m] < comps[k].indices[l])
          && |comps[k].members| == |comps[k].indices|
          && (forall m :: 0 <= m < |comps[k].indices| ==> comps[k].members[m] == ids[comps[k].indices[m]])
          && (comps[k].shadow <==> |comps[k].indices| > 1))
    && (forall i :: 0 <= i < |ids| ==> Covered(comps, i))
    && (forall k, l, a, b :: 0 <= k < |comps| && 0 <= l < |comps| && a in comps[k].indices && b in comps[l].indices ==>
          (k == l <==> Connected(c, a, b)))
    && (forall k, l :: 0 <= k < l < |comps| ==> comps[k].indices[0] < comps[l].indices[0])
  }

  /** The component list the grouping stands for. */
  ghost function ComponentsOf(cls: seq<nat>, ids: seq<string>, m: nat): seq<Component>
    requires |ids| == |cls| && m <= |FirstSeen(cls, |cls|)|
  {
    seq(m, k requires 0 <= k < m =>
      var at := Members(cls, FirstSeen(cls, |cls|)[k], |cls|);
      Component(k, at, Named(ids, at), |at| > 1))
  }

  lemma HeadsDistinct(cls: seq<nat>, o: seq<nat>, n: nat, k: nat, l: nat)
    requires n <= |cls| && Heads(cls, o, n) && k < |o| && l < |o| && k != l
    ensures o[k] != o[l]
  {
    hide Members;
    if k < l {
      assert Members(cls, o[k], n)[0] < Members(cls, o[l], n)[0];
    } else {
      assert Members(cls, o[l], n)[0] < Members(cls, o[k], n)[0];
    }
  }

  lemma ComponentsAreQuotient(c: Cloud, cls: seq<nat>, ids: seq<string>)
    requires c.Shaped() && |ids| == |c.rows| && Classifies(c, cls)
    ensures IsQuotient(c, ids, ComponentsOf(cls, ids, |FirstSeen(cls, |cls|)|))
  {
    hide Connected, Members, FirstSeen;
    var n, o := |cls|, FirstSeen(cls, |cls|);
    var comps := ComponentsOf(cls, ids, |o|);
    FirstSeenSpec(cls, n);
    forall i | 0 <= i < n ensures Covered(comps, i) {
      MembersComplete(cls, n, i);
      var k :| 0 <= k < |o| && o[k] == cls[i];
      assert i in comps[k].indices;
    }
    forall k, l, a, b | 0 <= k < |comps| && 0 <= l < |comps| && a in comps[k].indices && b in comps[l].indices
      ensures k == l <==> Connected(c, a, b)
    {
      MembersMeet(c, cls, o, k, l, a, b);
    }
  }

  lemma MembersMeet(c: Cloud, cls: seq<nat>, o: seq<nat>, k: nat, l: nat, a: nat, b: nat)
    requires c.Shaped() && Classifies(c, cls) && Heads(cls, o, |cls|) && k < |o| && l < |o|
    requires a in Members(cls, o[k], |cls|) && b in Members(cls, o[l], |cls|)
    ensures k == l <==> Connected(c, a, b)
  {
    hide Connected, Members, Heads;
    assert cls[a] == o[k] && cls[b] == o[l];
    if k != l { HeadsDistinct(cls, o, |cls|, k, l); }
  }

  // ----- The program -----

  /** Whether a row difference of that many columns can be multiplied by n weights: the lengths agree, or
      one of them is 1 and that entry is repeated. */
  predicate Compatible(cols: nat, n: nat) { n == cols || n == 1 || cols == 1 }

  /** The rows and weights as the product sees them. */
  function Broadcast(rows: seq<Vec>, cols: nat, weights: Option<Vec>, tolerance: real): (c: Cloud)
    requires forall i :: 0 <= i < |rows| ==> |rows[i]| == cols
    ensures c.Shaped() && |c.rows| == |rows|
  {
    if weights.None? || !Compatible(cols, |weights.value|) then Cloud(rows, Constant(cols, 1.0), tolerance)
    else
      var w := weights.value;
      if |w| == cols then Cloud(rows, w, tolerance)
      else if |w| == 1 then Cloud(rows, Constant(cols, w[0]), tolerance)
      else Cloud(seq(|rows|, i requires 0 <= i < |rows| => Constant(|w|, rows[i][0])), w, tolerance)
  }

  // ----- What is promised -----

  /** d holds the entries of the difference of two rows times the weights: weight 1 when there are none, the
      entry's own weight when the lengths agree, the only weight when there is one, and with one column the
      single difference times each weight. */
  ghost predicate WeightedDifference(a: Vec, b: Vec, weights: Option<Vec>, d: Vec)
    requires |a| == |b|
  {
    if weights.None? then |d| == |a| && forall k :: 0 <= k < |d| ==> d[k] == a[k] - b[k]
    else
      var w := weights.value;
      if |w| == |a| then |d| == |a| && forall k :: 0 <= k < |d| ==> d[k] == (a[k] - b[k]) * w[k]
      else if |w| == 1 then |d| == |a| && forall k :: 0 <= k < |d| ==> d[k] == (a[k] - b[k]) * w[0]
      else |a| == 1 && |d| == |w| && forall k :: 0 <= k < |d| ==> d[k] == (a[0] - b[0]) * w[k]
  }

  /** The weighted distance of two rows is within the tolerance; distances are compared squared. */
  ghost predicate Close(a: Vec, b: Vec, weights: Option<Vec>, tolerance: real)
    requires |a| == |b|
  {
    tolerance >= 0.0 && exists d :: WeightedDifference(a, b, weights, d) && Dot(d, d) <= tolerance * tolerance
  }

  /** Rows that all have the same number of columns. */
  predicate SameLength(rows: seq<Vec>) { forall i, j :: 0 <= i < |rows| && 0 <= j < |rows| ==> |rows[i]| == |rows[j]| }

  /** A chain of actions leads from i to j in which each is close to the next. */
  ghost predicate Linked(rows: seq<Vec>, weights: Option<Vec>, tolerance: real, i: nat, j: nat)
    requires SameLength(rows)
  {
    exists path: seq<nat> :: Links(rows, weights, tolerance, path) && path[0] == i && path[|path| - 1] == j
  }

  ghost predicate Links(rows: seq<Vec>, weights: Option<Vec>, tolerance: real, path: seq<nat>)
    requires SameLength(rows)
  {
    && |path| > 0 && (forall k :: 0 <= k < |path| ==> path[k] < |rows|)
    && forall k :: 0 <= k < |path| - 1 ==> Close(rows[path[k]], rows[path[k + 1]], weights, tolerance)
  }

  /** Two actions share a component exactly when they are linked. */
  ghost predicate SharedIffLinked(rows: seq<Vec>, weights: Option<Vec>, tolerance: real, comps: seq<Component>)
    requires SameLength(rows)
  {
    forall k, l, a, b ::
      0 <= k < |comps| && 0 <= l < |comps| && a in comps[k].indices && b in comps[l].indices ==>
        (k == l <==> Linked(rows, weights, tolerance, a, b))
  }

  lemma BroadcastDifference(rows: seq<Vec>, cols: nat, weights: Option<Vec>, tolerance: real, i: nat, j: nat)
    requires (forall i :: 0 <= i < |rows| ==> |rows[i]| == cols) && i < |rows| && j < |rows|
    requires weights.Some? ==> Compatible(cols, |weights.value|)
    ensures var c := Broadcast(rows, cols, weights, tolerance);
      && WeightedDifference(rows[i], rows[j], weights, Times(Sub(c.rows[i], c.rows[j]), c.weights))
      && c.tolerance == tolerance
  {
  }

  lemma DifferenceIsUnique(a: Vec, b: Vec, weights: Option<Vec>, d: Vec, e: Vec)
    requires |a| == |b| && WeightedDifference(a, b, weights, d) && WeightedDifference(a, b, weights, e)
    ensures d == e
  {
  }

  lemma NearIsClose(rows: seq<Vec>, cols: nat, weights: Option<Vec>, tolerance: real, i: nat, j: nat)
    requires (forall i :: 0 <= i < |rows| ==> |rows[i]| == cols) && i < |rows| && j < |rows|
    requires weights.Some? ==> Compatible(cols, |weights.value|)
    ensures Broadcast(rows, cols, weights, tolerance).Near(i, j) <==> Close(rows[i], rows[j], weights, tolerance)
  {
    hide Broadcast, WeightedDifference, DotTo, Times, Sub;
    BroadcastDifference(rows, cols, weights, tolerance, i, j);
    var c := Broadcast(rows, cols, weights, tolerance);
    var d := Times(Sub(c.rows[i], c.rows[j]), c.weights);
    forall e | WeightedDifference(rows[i], rows[j], weights, e) ensures e == d {
      DifferenceIsUnique(rows[i], rows[j], weights, d, e);
    }
  }

  lemma ConnectedIsLinked(rows: seq<Vec>, cols: nat, weights: Option<Vec>, tolerance: real, i: nat, j: nat)
    requires (forall i :: 0 <= i < |rows| ==> |rows[i]| == cols) && i < |rows| && j < |rows|
    requires |rows| >= 2 && weights.Some? ==> Compatible(cols, |weights.value|)
    ensures Connected(Broadcast(rows, cols, weights, tolerance), i, j) <==> Linked(rows, weights, tolerance, i, j)
  {
    hide Broadcast, Close;
    var c := Broadcast(rows, cols, weights, tolerance);
    if |rows| < 2 {
      ConnectedRefl(c, i);
      assert Links(rows, weights, tolerance, [i]);
    } else {
      forall a: nat, b: nat | a < |rows| && b < |rows|
        ensures c.Near(a, b) <==> Close(rows[a], rows[b], weights, tolerance)
      {
        NearIsClose(rows, cols, weights, tolerance, a, b);
      }
      SamePaths(rows, c, weights, tolerance);
      hide Connected, Linked, Chain, Links;
      ConnectedByPath(c, i, j);
      LinkedByPath(rows, weights, tolerance, i, j);
    }
  }

  lemma SamePaths(rows: seq<Vec>, c: Cloud, weights: Option<Vec>, tolerance: real)
    requires SameLength(rows) && c.Shaped() && |c.rows| == |rows|
    requires forall a: nat, b: nat :: a < |rows| && b < |rows| ==>
      (c.Near(a, b) <==> Close(rows[a], rows[b], weights, tolerance))
    ensures forall path: seq<nat> :: Chain(c, path) <==> Links(rows, weights, tolerance, path)
  {
  }

  lemma ConnectedByPath(c: Cloud, i: nat, j: nat)
    requires c.Shaped()
    ensures Connected(c, i, j) <==>
      exists path: seq<nat> :: Chain(c, path) && |path| > 0 && path[0] == i && path[|path| - 1] == j
  {
  }

  lemma LinkedByPath(rows: seq<Vec>, weights: Option<Vec>, tolerance: real, i: nat, j: nat)
    requires SameLength(rows)
    ensures Linked(rows, weights, tolerance, i, j) <==>
      exists path: seq<nat> ::
        Links(rows, weights, tolerance, path) && |path| > 0 && path[0] == i && path[|path| - 1] == j
  {
  }

  lemma QuotientIsLinked(rows: seq<Vec>, cols: nat, weights: Option<Vec>, tolerance: real, ids: seq<string>,
                         comps: seq<Component>)
    requires (forall i :: 0 <= i < |rows| ==> |rows[i]| == cols) && |ids| == |rows|
    requires |rows| >= 2 && weights.Some? ==> Compatible(cols, |weights.value|)
    requires IsQuotient(Broadcast(rows, cols, weights, tolerance), ids, comps)
    ensures SharedIffLinked(rows, weights, tolerance, comps)
  {
    hide Broadcast, Connected, Linked;
    var c := Broadcast(rows, cols, weights, tolerance);
    forall k, l, a, b | 0 <= k < |comps| && 0 <= l < |comps| && a in comps[k].indices && b in comps[l].indices
      ensures k == l <==> Linked(rows, weights, tolerance, a, b)
    {
      ConnectedIsLinked(rows, cols, weights, tolerance, a, b);
    }
  }

  /** Weights that do not fit are only noticed when two rows are compared. */
  method Discover(ids: seq<string>, rows: seq<Vec>, cols: nat, weights: Option<Vec>, tolerance: real)
    returns (r: Outcome)
    ensures r.NotTwoDimensional? <==> exists i :: 0 <= i < |rows| && |rows[i]| != cols
    ensures r.LengthMismatch? <==> !r.NotTwoDimensional? && |rows| != |ids|
    ensures r.WeightMismatch? <==>
              && !r.NotTwoDimensional? && !r.LengthMismatch?
              && |rows| >= 2 && weights.Some? && cols != 1 && |weights.value| != 1 && |weights.value| != cols
    ensures r.Components? ==>
              && |ids| == |rows| && (forall i :: 0 <= i < |rows| ==> |rows[i]| == cols)
              && IsQuotient(Broadcast(rows, cols, weights, tolerance), ids, r.components)
              && SameLength(rows) && SharedIffLinked(rows, weights, tolerance, r.components)
  {
    hide IsQuotient, Classifies, Forest, Roots, Grouping, FirstSeen, Members, Broadcast, SharedIffLinked;
    if i :| 0 <= i < |rows| && |rows[i]| != cols { return NotTwoDimensional; }
    if |rows| != |ids| { return LengthMismatch; }
    if |rows| >= 2 && weights.Some? && !Compatible(cols, |weights.value|) { return WeightMismatch; }
    var c := Broadcast(rows, cols, weights, tolerance);
    var classes := Merge(c);
    ghost var cls := classes.Classes();
    ClassifiesSize(c, cls);
    var order, groups := Group(classes);
    GroupingOrder(cls, order, groups);
    var comps := [];
    var k := 0;
    while k < |order|
      invariant k <= |order| && comps == ComponentsOf(cls, ids, k)
    {
      GroupingAt(cls, order, groups, k);
      var inds := groups[order[k]];
      comps := comps + [Component(k, inds, Named(ids, inds), |inds| > 1)];
      k := k + 1;
    }
    ComponentsAreQuotient(c, cls, ids);
    QuotientIsLinked(rows, cols, weights, tolerance, ids, comps);
    return Components(comps);
  }

  lemma GroupingAt(cls: seq<nat>, order: seq<nat>, groups: map<nat, seq<nat>>, k: nat)
    requires Grouping(cls, |cls|, order, groups) && k < |order|
    ensures order[k] in groups && order == FirstSeen(cls, |cls|)
    ensures groups[order[k]] == Members(cls, order[k], |cls|)
  {
  }

  lemma GroupingOrder(cls: seq<nat>, order: seq<nat>, groups: map<nat, seq<nat>>)
    requires Grouping(cls, |cls|, order, groups)
    ensures order == FirstSeen(cls, |cls|)
  {
  }

  /** The grouping loop: find may shorten paths but the classes stay the same. */
  method Group(classes: Partition) returns (order: seq<nat>, groups: map<nat, seq<nat>>)
    requires classes.Valid()
    modifies classes.parent
    ensures classes.Valid() && classes.Classes() == old(classes.Classes())
    ensures Grouping(classes.Classes(), classes.parent.Length, order, groups)
  {
    hide Grouping, Forest, Roots, FirstSeen, Members;
    ghost var cls := classes.Classes();
    order, groups := [], map[];
    var i := 0;
    GroupingStart(cls);
    while i < classes.parent.Length
      invariant i <= classes.parent.Length && classes.Valid() && classes.Classes() == cls
      invariant Grouping(cls, i, order, groups)
    {
      var root := classes.Find(i);
      GroupingStep(cls, i, order, groups);
      if root !in groups { order := order + [root]; }
      groups := groups[root := (if root in groups then groups[root] else []) + [i]];
      i := i + 1;
    }
  }

  lemma GroupingStart(cls: seq<nat>)
    ensures Grouping(cls, 0, [], map[])
  {
  }

  lemma ClassifiesSize(c: Cloud, cls: seq<nat>)
    requires c.Shaped() && Classifies(c, cls)
    ensures |cls| == |c.rows|
  {
  }
}
