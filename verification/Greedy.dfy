/** Counting arguments for greedy selection from a list sorted by score: a selection is a set of
    positions, and everything is compared prefix by prefix. */
module Greedy {
  import opened Sums

  /** The positions of S below n. */
  function Below(S: set<nat>, n: nat): (r: set<nat>) { set i | i in S && i < n }

  /** The positions of S whose key is t. */
  function Group(S: set<nat>, keys: seq<string>, t: string): (r: set<nat>) {
    set i | i in S && i < |keys| && keys[i] == t
  }

  function Grouped(S: set<nat>, keys: seq<string>, K: set<string>): (r: set<nat>) {
    set i | i in S && i < |keys| && keys[i] in K
  }

  ghost function Total(w: seq<real>, S: set<nat>, n: nat): real
    requires n <= |w|
  {
    if n == 0 then 0.0 else Total(w, S, n - 1) + (if n - 1 in S then w[n - 1] else 0.0)
  }

  /** The positions of S below n, in increasing order. */
  function Indices(S: set<nat>, n: nat): (r: seq<nat>)
    ensures forall k :: 0 <= k < |r| ==> r[k] < n && r[k] in S
    ensures forall k, m :: 0 <= k < m < |r| ==> r[k] < r[m]
  {
    if n == 0 then [] else Indices(S, n - 1) + (if n - 1 in S then [n - 1] else [])
  }

  ghost predicate Descending(w: seq<real>) { forall i, j :: 0 <= i < j < |w| ==> w[i] >= w[j] }

  lemma BelowStep(S: set<nat>, n: nat)
    ensures |Below(S, n + 1)| == |Below(S, n)| + (if n in S then 1 else 0)
  {
    if n in S {
      assert Below(S, n + 1) == Below(S, n) + {n};
    } else {
      assert Below(S, n + 1) == Below(S, n);
    }
  }

  lemma BelowAll(S: set<nat>, n: nat)
    requires forall i :: i in S ==> i < n
    ensures Below(S, n) == S
  {
  }

  lemma {:induction false} IndicesCount(S: set<nat>, n: nat)
    ensures |Indices(S, n)| == |Below(S, n)|
  {
    if n == 0 {
      assert Below(S, 0) == {};
    } else {
      hide Below;
      IndicesCount(S, n - 1);
      BelowStep(S, n - 1);
    }
  }

  /** If every key in K has at least as many positions in G as in S, so has K as a whole. */
  lemma {:induction false} GroupwiseLe(S: set<nat>, G: set<nat>, keys: seq<string>, K: set<string>)
    requires forall t :: t in K ==> |Group(S, keys, t)| <= |Group(G, keys, t)|
    ensures |Grouped(S, keys, K)| <= |Grouped(G, keys, K)|
  {
    if K == {} {
      assert Grouped(S, keys, K) == {};
    } else {
      var t :| t in K;
      GroupwiseLe(S, G, keys, K - {t});
      GroupSplit(S, keys, K, t);
      GroupSplit(G, keys, K, t);
    }
  }

  lemma GroupSplit(S: set<nat>, keys: seq<string>, K: set<string>, t: string)
    requires t in K
    ensures |Grouped(S, keys, K)| == |Grouped(S, keys, K - {t})| + |Group(S, keys, t)|
  {
    assert Grouped(S, keys, K) == Grouped(S, keys, K - {t}) + Group(S, keys, t);
    assert Grouped(S, keys, K - {t}) !! Group(S, keys, t);
  }

  /** Positions outside the saturated groups AT and AS lie in G outside its own saturated groups. */
  lemma SetCharge(A: set<nat>, G: set<nat>, AT: set<nat>, AS: set<nat>, GT: set<nat>, GS: set<nat>)
    requires GT <= G && GS <= G && AT <= A && AS <= A && |AT| <= |GT| && |AS| <= |GS|
    requires forall i :: i in A ==> i in AT || i in AS || (i in G && i !in GT && i !in GS)
    ensures |A| <= 2 * |G|
    ensures AT == {} || AS == {} ==> |A| <= |G|
  {
    var rest := A - AT - AS;
    assert A == AT + (AS - AT) + rest;
    SubsetSize(AS - AT, AS);
    assert |A| == |AT| + |AS - AT| + |rest|;
    assert rest <= G - GT && rest <= G - GS;
    SubsetSize(rest, G - GT); SubsetSize(rest, G - GS);
    assert |G - GT| == |G| - |GT| by { assert G == (G - GT) + GT; }
    assert |G - GS| == |G| - |GS| by { assert G == (G - GS) + GS; }
    SubsetSize(GS, G); SubsetSize(GT, G);
  }

  /** Prefix by prefix, S has at most c times as many positions as G. */
  ghost predicate Charged(S: set<nat>, G: set<nat>, c: nat, n: nat) {
    forall k: nat :: k <= n ==> |Below(S, k)| <= c * |Below(G, k)|
  }

  /** What the factor c leaves over in counts ... */
  ghost function Surplus(S: set<nat>, G: set<nat>, c: nat, n: nat): int {
    c * |Below(G, n)| - |Below(S, n)|
  }

  /** ... and in total weight. */
  ghost function Lead(w: seq<real>, S: set<nat>, G: set<nat>, c: nat, n: nat): real
    requires n <= |w|
  {
    c as real * Total(w, G, n) - Total(w, S, n)
  }

  function Gain(S: set<nat>, G: set<nat>, c: nat, i: nat): int {
    (if i in G then c else 0) - (if i in S then 1 else 0)
  }

  lemma SurplusStep(S: set<nat>, G: set<nat>, c: nat, i: nat)
    ensures Surplus(S, G, c, i + 1) == Surplus(S, G, c, i) + Gain(S, G, c, i)
  {
    BelowStep(S, i);
    BelowStep(G, i);
    if i in G { assert c * (|Below(G, i)| + 1) == c * |Below(G, i)| + c; }
  }

  lemma LeadStep(w: seq<real>, S: set<nat>, G: set<nat>, c: nat, i: nat)
    requires i < |w|
    ensures Lead(w, S, G, c, i + 1) == Lead(w, S, G, c, i) + w[i] * (Gain(S, G, c, i) as real)
  {
    if i in G { assert c as real * (Total(w, G, i) + w[i]) == c as real * Total(w, G, i) + c as real * w[i]; }
  }

  lemma AbelScalar(lead: real, w0: real, w1: real, d: int, gain: int)
    requires w0 >= w1 && d >= 0 && lead >= w0 * (d as real)
    ensures lead + w1 * (gain as real) >= w1 * ((d + gain) as real)
  {
    assert (w0 - w1) * (d as real) >= 0.0;
    assert (d + gain) as real == d as real + gain as real;
  }

  lemma {:induction false} AbelTo(w: seq<real>, S: set<nat>, G: set<nat>, c: nat, n: nat)
    requires 0 < n <= |w| && Descending(w)
    requires forall k: nat :: k <= n ==> Surplus(S, G, c, k) >= 0
    ensures Lead(w, S, G, c, n) >= w[n - 1] * (Surplus(S, G, c, n) as real)
  {
    hide Surplus, Lead, Gain;
    var i := n - 1;
    SurplusStep(S, G, c, i);
    LeadStep(w, S, G, c, i);
    if n == 1 {
      LeadStart(w, S, G, c);
      AbelScalar(0.0, w[0], w[0], 0, Gain(S, G, c, 0));
    } else {
      AbelTo(w, S, G, c, i);
      AbelScalar(Lead(w, S, G, c, i), w[i - 1], w[i], Surplus(S, G, c, i), Gain(S, G, c, i));
    }
  }

  lemma LeadStart(w: seq<real>, S: set<nat>, G: set<nat>, c: nat)
    ensures Lead(w, S, G, c, 0) == 0.0 && Surplus(S, G, c, 0) == 0
  {
    assert Below(S, 0) == {} && Below(G, 0) == {};
  }

  /** Abel summation: prefix counts within a factor c give totals within the factor c, for any
      nonnegative weights that never increase along the list. */
  lemma ChargedTotals(w: seq<real>, S: set<nat>, G: set<nat>, c: nat)
    requires Descending(w) && (forall i :: 0 <= i < |w| ==> w[i] >= 0.0)
    requires Charged(S, G, c, |w|)
    ensures Total(w, S, |w|) <= c as real * Total(w, G, |w|)
  {
    var n := |w|;
    if n > 0 {
      hide Surplus;
      forall k: nat | k <= n ensures Surplus(S, G, c, k) >= 0 { ChargedSurplus(S, G, c, n, k); }
      AbelTo(w, S, G, c, n);
      assert w[n - 1] * (Surplus(S, G, c, n) as real) >= 0.0;
    }
  }

  lemma ChargedSurplus(S: set<nat>, G: set<nat>, c: nat, n: nat, k: nat)
    requires Charged(S, G, c, n) && k <= n
    ensures Surplus(S, G, c, k) >= 0
  {
  }

  lemma ChargedIndices(S: set<nat>, G: set<nat>, n: nat)
    requires Charged(S, G, 1, n)
    ensures |Indices(S, n)| <= |Indices(G, n)|
  {
    IndicesCount(S, n); IndicesCount(G, n);
    assert |Below(S, n)| <= 1 * |Below(G, n)|;
  }

  /** With factor 1, the k-th position of G is never later than the k-th position of S. */
  lemma {:induction false} ChargedPositions(S: set<nat>, G: set<nat>, n: nat)
    requires Charged(S, G, 1, n)
    ensures |Indices(S, n)| <= |Indices(G, n)|
    ensures forall k :: 0 <= k < |Indices(S, n)| ==> Indices(G, n)[k] <= Indices(S, n)[k]
  {
    ChargedIndices(S, G, n);
    if n == 0 {
    } else {
      ChargedPositions(S, G, n - 1);
      hide Charged, Below;
      var s0, s1, g0, g1 := Indices(S, n - 1), Indices(S, n), Indices(G, n - 1), Indices(G, n);
      forall k | 0 <= k < |s1| ensures g1[k] <= s1[k] {
        if k < |s0| { assert s1[k] == s0[k] && g1[k] == g0[k]; } else { assert s1[k] == n - 1; }
      }
    }
  }

  // ----- What a selection loop maintains -----

  function Pick<T>(rows: seq<T>, at: seq<nat>): (r: seq<T>)
    requires forall k :: 0 <= k < |at| ==> at[k] < |rows|
    ensures |r| == |at|
  {
    seq(|at|, k requires 0 <= k < |at| => rows[at[k]])
  }

  /** The list holds the rows at the positions of S, in order. */
  ghost predicate PickedAt<T>(rows: seq<T>, S: set<nat>, selected: seq<T>) {
    exists at: seq<nat> ::
      && |at| == |selected| && (forall i, j :: 0 <= i < j < |at| ==> at[i] < at[j])
      && (forall i :: i in S <==> i in at) && forall k :: 0 <= k < |at| ==> at[k] < |rows| && selected[k] == rows[at[k]]
  }

  lemma {:induction false} IndicesHold(S: set<nat>, n: nat, i: nat)
    requires i in S && i < n
    ensures i in Indices(S, n)
  {
    if i == n - 1 {
    } else {
      IndicesHold(S, n - 1, i);
    }
  }

  lemma PickIsAt<T>(rows: seq<T>, S: set<nat>)
    requires forall i :: i in S ==> i < |rows|
    ensures PickedAt(rows, S, Pick(rows, Indices(S, |rows|)))
  {
    var at := Indices(S, |rows|);
    forall i | i in S ensures i in at {
      IndicesHold(S, |rows|, i);
    }
  }

  /** The dictionary holds exactly the number of chosen positions per key, except for skipped keys. */
  ghost predicate Counts(d: map<string, nat>, G: set<nat>, keys: seq<string>, skip: set<string>) {
    forall t :: t in skip || (if t in d then d[t] else 0) == |Group(G, keys, t)|
  }

  lemma PickGrow<T>(rows: seq<T>, at: seq<nat>, n: nat)
    requires n < |rows| && forall k :: 0 <= k < |at| ==> at[k] < |rows|
    ensures Pick(rows, at + [n]) == Pick(rows, at) + [rows[n]]
  {
  }

  lemma CountsRead(d: map<string, nat>, G: set<nat>, keys: seq<string>, skip: set<string>, t: string, count: nat)
    requires Counts(d, G, keys, skip) && count == (if t in d then d[t] else 0)
    ensures t in skip || count == |Group(G, keys, t)|
  {
  }

  lemma CountsGrow(d: map<string, nat>, G: set<nat>, keys: seq<string>, skip: set<string>, i: nat, count: nat)
    requires Counts(d, G, keys, skip) && i !in G && i < |keys|
    requires count == (if keys[i] in d then d[keys[i]] else 0)
    ensures Counts(if keys[i] in skip then d else d[keys[i] := count + 1], G + {i}, keys, skip)
  {
    hide Group;
    GroupGrows(G, keys, i);
  }

  lemma GroupGrows(G: set<nat>, keys: seq<string>, i: nat)
    requires i !in G && i < |keys|
    ensures forall t :: |Group(G + {i}, keys, t)| == |Group(G, keys, t)| + (if keys[i] == t then 1 else 0)
  {
    forall t ensures |Group(G + {i}, keys, t)| == |Group(G, keys, t)| + (if keys[i] == t then 1 else 0) {
      if keys[i] == t {
        assert Group(G + {i}, keys, t) == Group(G, keys, t) + {i};
      } else {
        assert Group(G + {i}, keys, t) == Group(G, keys, t);
      }
    }
  }

  lemma {:induction false} IndicesSame(S: set<nat>, S': set<nat>, n: nat)
    requires forall i :: i < n ==> (i in S <==> i in S')
    ensures Indices(S, n) == Indices(S', n)
  {
    if n == 0 {
    } else {
      IndicesSame(S, S', n - 1);
    }
  }

  lemma IndicesGrow(G: set<nat>, i: nat)
    requires forall k :: k in G ==> k < i
    ensures Indices(G + {i}, i + 1) == Indices(G, i) + [i]
  {
    IndicesSame(G, G + {i}, i);
  }

  lemma {:induction false} IndicesStop(G: set<nat>, i: nat, n: nat)
    requires i <= n && forall k :: k in G ==> k < i
    ensures Indices(G, n) == Indices(G, i)
  {
    if i == n {
    } else {
      IndicesStop(G, i, n - 1);
    }
  }

  function CapOf(cap: int): nat { if cap > 0 then cap else 0 }

  lemma CapKept(G: set<nat>, keys: seq<string>, cap: int, i: nat, t: string)
    requires i !in G && i < |keys| && |Group(G, keys, t)| <= CapOf(cap)
    requires keys[i] == t ==> |Group(G, keys, t)| < cap
    ensures |Group(G + {i}, keys, t)| <= CapOf(cap)
  {
    hide Group;
    GroupGrows(G, keys, i);
  }
}
