/** The union-find forest inside response-quotient discovery (lean_rgc/quotient.py): path halving in
    find, and unions that always hang the second root under the first. There is no rank and no index
    order, so a ghost depth measure justifies termination. */
module UnionFind {
  /** Every parent is a position, and depth strictly falls on the way to a root. */
  ghost predicate Forest(p: seq<nat>, depth: seq<nat>) {
    && |depth| == |p|
    && (forall i :: 0 <= i < |p| ==> p[i] < |p|)
    && (forall i :: 0 <= i < |p| && p[i] != i ==> depth[p[i]] < depth[i])
  }

  ghost function Root(p: seq<nat>, depth: seq<nat>, i: nat): (r: nat)
    requires Forest(p, depth) && i < |p|
    ensures r < |p| && p[r] == r
    decreases depth[i]
  {
    if p[i] == i then i else Root(p, depth, p[i])
  }

  /** One halving step: i now points at its grandparent. */
  ghost function Halved(p: seq<nat>, i: nat): seq<nat>
    requires i < |p| && p[i] < |p|
  {
    p[i := p[p[i]]]
  }

  lemma HalvedForest(p: seq<nat>, depth: seq<nat>, i: nat)
    requires Forest(p, depth) && i < |p|
    ensures Forest(Halved(p, i), depth)
  {
  }

  /** Halving keeps the root of every position, not only of those below i. */
  lemma {:induction false} HalvedRoots(p: seq<nat>, depth: seq<nat>, i: nat, x: nat)
    requires Forest(p, depth) && i < |p| && x < |p|
    ensures Forest(Halved(p, i), depth) && Root(Halved(p, i), depth, x) == Root(p, depth, x)
    decreases depth[x]
  {
    HalvedForest(p, depth, i);
    if p[x] != x {
      if x == i && p[p[x]] != p[x] {
        HalvedRoots(p, depth, i, p[p[x]]);
      } else {
        HalvedRoots(p, depth, i, p[x]);
      }
    }
  }

  /** The depth measure after hanging root b, with its whole tree, under root a. */
  ghost function Deepened(p: seq<nat>, depth: seq<nat>, a: nat, b: nat): (d: seq<nat>)
    requires Forest(p, depth) && a < |p| && b < |p|
    ensures |d| == |p|
  {
    seq(|p|, i requires 0 <= i < |p| => if Root(p, depth, i) == b then depth[i] + depth[a] + 1 else depth[i])
  }

  lemma JoinedForest(p: seq<nat>, depth: seq<nat>, a: nat, b: nat)
    requires Forest(p, depth) && a < |p| && b < |p| && p[a] == a && p[b] == b && a != b
    ensures Forest(p[b := a], Deepened(p, depth, a, b))
  {
    var q, d := p[b := a], Deepened(p, depth, a, b);
    forall i | 0 <= i < |q| && q[i] != i ensures d[q[i]] < d[i] {
      if i != b { assert Root(p, depth, i) == Root(p, depth, p[i]); }
    }
  }

  /** Joining moves exactly the positions whose root was b to root a. */
  lemma {:induction false} JoinedRoots(p: seq<nat>, depth: seq<nat>, a: nat, b: nat, x: nat)
    requires Forest(p, depth) && a < |p| && b < |p| && p[a] == a && p[b] == b && a != b && x < |p|
    ensures Forest(p[b := a], Deepened(p, depth, a, b))
    ensures Root(p[b := a], Deepened(p, depth, a, b), x)
            == if Root(p, depth, x) == b then a else Root(p, depth, x)
    decreases depth[x]
  {
    JoinedForest(p, depth, a, b);
    var q, d := p[b := a], Deepened(p, depth, a, b);
    if p[x] != x {
      JoinedRoots(p, depth, a, b, p[x]);
      assert q[x] == p[x];
    } else if x == b {
      assert Root(q, d, b) == Root(q, d, a) == a;
    }
  }

  /** The root of every position. */
  ghost function Roots(p: seq<nat>, depth: seq<nat>): (r: seq<nat>)
    requires Forest(p, depth)
    ensures |r| == |p| && forall i :: 0 <= i < |p| ==> r[i] == Root(p, depth, i)
  {
    seq(|p|, i requires 0 <= i < |p| => Root(p, depth, i))
  }

  /** The classes after merging the class of j into that of i. */
  ghost function Merged(classes: seq<nat>, i: nat, j: nat): (r: seq<nat>)
    requires i < |classes| && j < |classes|
    ensures |r| == |classes|
  {
    seq(|classes|, x requires 0 <= x < |classes| => if classes[x] == classes[j] then classes[i] else classes[x])
  }

  /** The parent list, mutated in place, with its ghost depths. */
  class Partition {
    const parent: array<nat>
    ghost var depth: seq<nat>

    ghost predicate Valid()
      reads this, parent
    {
      Forest(parent[..], depth)
    }

    /** The class of every position, named by its root. */
    ghost function Classes(): (r: seq<nat>)
      requires Valid()
      reads this, parent
      ensures |r| == parent.Length
    {
      Roots(parent[..], depth)
    }

    constructor (n: nat)
      ensures Valid() && fresh(parent) && Classes() == seq(n, i => i)
    {
      parent := new nat[n](i => i);
      depth := seq(n, i => 0);
    }

    /** Returns the root of start; the parent list changes but no position changes its root. */
    method Find(start: nat) returns (i: nat)
      requires Valid() && start < parent.Length
      modifies parent
      ensures Valid() && Classes() == old(Classes()) && i == Classes()[start]
    {
      i := start;
      while parent[i] != i
        invariant i < parent.Length && Valid()
        invariant Classes() == old(Classes()) && Classes()[i] == Classes()[start]
        decreases depth[i]
      {
        ghost var p := parent[..];
        forall x | 0 <= x < |p|
          ensures Forest(Halved(p, i), depth) && Root(Halved(p, i), depth, x) == Root(p, depth, x)
        {
          HalvedRoots(p, depth, i, x);
        }
        parent[i] := parent[parent[i]];
        assert parent[..] == Halved(p, i);
        i := parent[i];
      }
    }

    /** Merges the class of j into the class of i. */
    method Union(i: nat, j: nat)
      requires Valid() && i < parent.Length && j < parent.Length
      modifies this, parent
      ensures Valid() && Classes() == Merged(old(Classes()), i, j)
    {
      var ri: nat := Find(i);
      var rj: nat := Find(j);
      if ri != rj {
        ghost var p, d := parent[..], depth;
        forall x | 0 <= x < |p|
          ensures Forest(p[rj := ri], Deepened(p, d, ri, rj))
          ensures Root(p[rj := ri], Deepened(p, d, ri, rj), x) == if Root(p, d, x) == rj then ri else Root(p, d, x)
        {
          JoinedRoots(p, d, ri, rj, x);
        }
        parent[rj] := ri;
        depth := Deepened(p, d, ri, rj);
        assert parent[..] == p[rj := ri];
      }
    }
  }
}
