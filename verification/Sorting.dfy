/** Stable sorting by a total preorder, as the library sort that several modules call. */
module Sorting {
  import opened Options

  ghost predicate TotalPreorder<T(!new)>(before: (T, T) -> bool) {
    && (forall a, b :: before(a, b) || before(b, a))
    && (forall a, b, c :: before(a, b) && before(b, c) ==> before(a, c))
  }

  ghost predicate SortedBy<T>(s: seq<T>, before: (T, T) -> bool) {
    forall i, j :: 0 <= i < j < |s| ==> before(s[i], s[j])
  }

  function Insert<T>(x: T, s: seq<T>, before: (T, T) -> bool): (r: seq<T>)
    ensures |r| == |s| + 1
  {
    if s == [] then [x]
    else if before(x, s[0]) then [x] + s
    else [s[0]] + Insert(x, s[1..], before)
  }

  function Sort<T>(s: seq<T>, before: (T, T) -> bool): (r: seq<T>)
    ensures |r| == |s|
  {
    if s == [] then [] else Insert(s[0], Sort(s[1..], before), before)
  }

  lemma {:induction false} InsertMultiset<T>(x: T, s: seq<T>, before: (T, T) -> bool)
    ensures multiset(Insert(x, s, before)) == multiset(s) + multiset{x}
  {
    if s != [] && !before(x, s[0]) {
      InsertMultiset(x, s[1..], before);
      assert s == [s[0]] + s[1..];
      assert multiset(Insert(x, s, before)) == multiset{s[0]} + multiset(Insert(x, s[1..], before));
    } else {
      assert multiset([x] + s) == multiset{x} + multiset(s);
    }
  }

  lemma {:induction false} InsertSorted<T(!new)>(x: T, s: seq<T>, before: (T, T) -> bool)
    requires TotalPreorder(before) && SortedBy(s, before)
    ensures SortedBy(Insert(x, s, before), before)
  {
    if s == [] {
    } else if before(x, s[0]) {
      forall k | 0 <= k < |s| ensures before(x, s[k]) {
        if k > 0 { assert before(s[0], s[k]); }
      }
    } else {
      var t := Insert(x, s[1..], before);
      InsertSorted(x, s[1..], before);
      InsertMultiset(x, s[1..], before);
      forall k | 0 <= k < |t| ensures before(s[0], t[k]) {
        assert t[k] in multiset(t);
        assert t[k] == x || t[k] in s[1..];
      }
    }
  }

  lemma {:induction false} SortIsSorted<T(!new)>(s: seq<T>, before: (T, T) -> bool)
    requires TotalPreorder(before)
    ensures SortedBy(Sort(s, before), before)
    ensures multiset(Sort(s, before)) == multiset(s)
  {
    if s == [] {
    } else {
      SortIsSorted(s[1..], before);
      InsertSorted(s[0], Sort(s[1..], before), before);
      InsertMultiset(s[0], Sort(s[1..], before), before);
      assert s == [s[0]] + s[1..];
    }
  }

  /** The entries that satisfy p, in order. */
  function Where<T>(s: seq<T>, p: T -> bool): seq<T> {
    if s == [] then [] else (if p(s[0]) then [s[0]] else []) + Where(s[1..], p)
  }

  /** Entries that p picks out are equal in the order. */
  ghost predicate Ties<T(!new)>(before: (T, T) -> bool, p: T -> bool) { forall a, b :: p(a) && p(b) ==> before(a, b) }

  lemma TiesAt<T(!new)>(before: (T, T) -> bool, p: T -> bool, a: T, b: T)
    requires Ties(before, p) && p(a) && p(b)
    ensures before(a, b)
  {
  }

  lemma WhereCons<T>(x: T, s: seq<T>, p: T -> bool)
    ensures Where([x] + s, p) == if p(x) then [x] + Where(s, p) else Where(s, p)
  {
    assert ([x] + s)[1..] == s;
    assert [] + Where(s, p) == Where(s, p);
  }

  lemma WhereNone<T>(p: T -> bool)
    ensures Where([], p) == []
  {
  }

  lemma {:induction false} WhereLast<T>(s: seq<T>, x: T, p: T -> bool)
    ensures Where(s + [x], p) == if p(x) then Where(s, p) + [x] else Where(s, p)
  {
    if s == [] {
      assert [] + [x] == [x] && [x][1..] == [];
      WhereCons(x, [], p);
      WhereNone(p);
    } else {
      var rest := s[1..];
      assert s == [s[0]] + rest && s + [x] == [s[0]] + (rest + [x]);
      WhereLast(rest, x, p);
      WhereCons(s[0], rest, p);
      WhereCons(s[0], rest + [x], p);
    }
  }

  lemma {:induction false} InsertStable<T(!new)>(x: T, s: seq<T>, before: (T, T) -> bool, p: T -> bool)
    requires Ties(before, p)
    ensures Where(Insert(x, s, before), p) == Where([x] + s, p)
  {
    hide Where, Ties;
    if s == [] {
      assert [x] + s == [x];
    } else if before(x, s[0]) {
    } else {
      var rest := s[1..];
      assert s == [s[0]] + rest;
      InsertStable(x, rest, before, p);
      WhereCons(s[0], Insert(x, rest, before), p);
      WhereCons(s[0], rest, p);
      WhereCons(x, rest, p);
      WhereCons(x, s, p);
      if p(x) && p(s[0]) {
        TiesAt(before, p, x, s[0]);
      }
    }
  }

  /** The sort is stable: equal entries stay in the order of the input. */
  lemma {:induction false} SortIsStable<T(!new)>(s: seq<T>, before: (T, T) -> bool, p: T -> bool)
    requires Ties(before, p)
    ensures Where(Sort(s, before), p) == Where(s, p)
  {
    if s == [] {
    } else {
      SortIsStable(s[1..], before, p);
      InsertStable(s[0], Sort(s[1..], before), before, p);
      WhereCons(s[0], Sort(s[1..], before), p);
      WhereCons(s[0], s[1..], p);
      assert s == [s[0]] + s[1..];
    }
  }

  ghost predicate Antisymmetric<T(!new)>(before: (T, T) -> bool) {
    forall a, b :: before(a, b) && before(b, a) ==> a == b
  }

  lemma TailMultiset<T>(s: seq<T>)
    requires s != []
    ensures multiset(s[1..]) == multiset(s) - multiset{s[0]}
  {
    assert s == [s[0]] + s[1..];
  }

  lemma FirstIsBefore<T(!new)>(s: seq<T>, x: T, before: (T, T) -> bool)
    requires TotalPreorder(before) && s != [] && SortedBy(s, before) && x in s
    ensures before(s[0], x)
  {
    assert before(x, x);
    var i :| 0 <= i < |s| && s[i] == x;
  }

  lemma TailSorted<T(!new)>(s: seq<T>, before: (T, T) -> bool)
    requires s != [] && SortedBy(s, before)
    ensures SortedBy(s[1..], before)
  {
  }

  lemma SameHead<T(!new)>(s: seq<T>, t: seq<T>, before: (T, T) -> bool)
    requires TotalPreorder(before) && Antisymmetric(before) && s != [] && t != []
    requires multiset(s) == multiset(t) && SortedBy(s, before) && SortedBy(t, before)
    ensures s[0] == t[0]
  {
    hide TotalPreorder, SortedBy;
    assert s[0] in multiset(t) && t[0] in multiset(s);
    FirstIsBefore(s, t[0], before);
    FirstIsBefore(t, s[0], before);
  }

  /** Nothing is left open when the order is antisymmetric. */
  lemma {:induction false} SortedIsUnique<T(!new)>(s: seq<T>, t: seq<T>, before: (T, T) -> bool)
    requires TotalPreorder(before) && Antisymmetric(before)
    requires multiset(s) == multiset(t) && SortedBy(s, before) && SortedBy(t, before)
    ensures s == t
  {
    hide TotalPreorder, Antisymmetric, SortedBy;
    assert |s| == |multiset(s)| == |multiset(t)| == |t|;
    if s == [] {
    } else {
      SameHead(s, t, before);
      TailMultiset(s);
      TailMultiset(t);
      TailSorted(s, before);
      TailSorted(t, before);
      SortedIsUnique(s[1..], t[1..], before);
      assert s == [s[0]] + s[1..] && t == [t[0]] + t[1..];
    }
  }

  lemma {:induction false} DistinctCounts<T(!new)>(s: seq<T>)
    ensures Distinct(s) <==> forall x :: x in s ==> multiset(s)[x] <= 1
  {
    if s == [] {
    } else {
      var r, y := s[..|s| - 1], s[|s| - 1];
      DistinctCounts(r);
      assert s == r + [y];
      assert multiset(s) == multiset(r) + multiset{y};
      assert y in r <==> multiset(r)[y] >= 1;
      if forall x :: x in s ==> multiset(s)[x] <= 1 {
        forall x | x in r ensures multiset(r)[x] <= 1 {
          assert x in s && multiset(s)[x] >= multiset(r)[x];
        }
        assert y in s && y !in r;
        forall i, j | 0 <= i < j < |s| ensures s[i] != s[j] {
          assert s[i] == r[i] && r[i] in r;
          assert j < |r| ==> s[j] == r[j];
        }
      }
    }
  }

  lemma SameMultisetDistinct<T(!new)>(s: seq<T>, t: seq<T>)
    requires multiset(s) == multiset(t) && Distinct(s)
    ensures Distinct(t)
  {
    DistinctCounts(s);
    DistinctCounts(t);
    forall x | x in t ensures multiset(t)[x] <= 1 {
      assert x in multiset(t);
      assert x in s;
    }
  }

  /** Lists without repetition that have the same members are permutations of each other. */
  lemma SameMembers<T(!new)>(s: seq<T>, t: seq<T>)
    requires Distinct(s)
    requires Distinct(t)
    requires forall x :: x in s <==> x in t
    ensures multiset(s) == multiset(t)
  {
    DistinctCounts(s);
    DistinctCounts(t);
    forall x ensures multiset(s)[x] == multiset(t)[x] {
      assert x in s <==> multiset(s)[x] >= 1;
      assert x in t <==> multiset(t)[x] >= 1;
    }
  }

  /** Code-point order of strings. */
  predicate LexLe(s: string, t: string) {
    if s == "" then true
    else if t == "" then false
    else if s[0] != t[0] then s[0] < t[0]
    else LexLe(s[1..], t[1..])
  }

  /** s is a prefix of t, or smaller at the first place where they differ. */
  lemma {:induction false} LexMeaning(s: string, t: string)
    ensures LexLe(s, t) <==>
      s <= t || exists k: nat :: k < |s| && k < |t| && s[..k] == t[..k] && s[k] < t[k]
  {
    if s == "" {
    } else if t == "" {
    } else if s[0] != t[0] {
      if s[0] < t[0] {
        assert s[..0] == t[..0];
      }
      forall k: nat | 0 < k < |s| && k < |t| ensures s[..k] != t[..k] {
        assert s[..k][0] == s[0] && t[..k][0] == t[0];
      }
    } else {
      LexMeaning(s[1..], t[1..]);
      assert s == [s[0]] + s[1..] && t == [t[0]] + t[1..];
      forall k: nat | k + 1 < |s| && k + 1 < |t| ensures s[1..][..k] == t[1..][..k] <==> s[..k + 1] == t[..k + 1] {
        assert s[..k + 1] == [s[0]] + s[1..][..k] && t[..k + 1] == [t[0]] + t[1..][..k];
        assert s[..k + 1][1..] == s[1..][..k] && t[..k + 1][1..] == t[1..][..k];
      }
      if LexLe(s, t) && !(s <= t) {
        var k: nat :| k < |s[1..]| && k < |t[1..]| && s[1..][..k] == t[1..][..k] && s[1..][k] < t[1..][k];
        assert s[..k + 1] == t[..k + 1] && s[k + 1] < t[k + 1];
      } else if !LexLe(s, t) {
        forall k: nat | k < |s| && k < |t| && s[..k] == t[..k] ensures s[k] >= t[k] {
          if k > 0 {
            assert s[1..][..k - 1] == t[1..][..k - 1] && s[1..][k - 1] == s[k] && t[1..][k - 1] == t[k];
          }
        }
      }
    }
  }

  lemma {:induction false} LexTotal(s: string, t: string)
    ensures LexLe(s, t) || LexLe(t, s)
    ensures LexLe(s, t) && LexLe(t, s) ==> s == t
  {
    if s == "" || t == "" || s[0] != t[0] {
    } else {
      LexTotal(s[1..], t[1..]);
      assert s == [s[0]] + s[1..] && t == [t[0]] + t[1..];
    }
  }

  lemma {:induction false} LexTransitive(s: string, t: string, u: string)
    requires LexLe(s, t) && LexLe(t, u)
    ensures LexLe(s, u)
  {
    if s == "" || t == "" || u == "" || s[0] != t[0] || t[0] != u[0] {
    } else {
      LexTransitive(s[1..], t[1..], u[1..]);
    }
  }
}
