/** Finite sets worked through in no particular order, and sums of a real-valued function over them. */
module Sums {
  ghost function SumOver<K(!new)>(keys: set<K>, f: K -> real): real {
    if keys == {} then 0.0
    else var k :| k in keys; SumOver(keys - {k}, f) + f(k)
  }

  /** Any key may be taken out first. */
  lemma {:induction false} SumRemove<K(!new)>(keys: set<K>, f: K -> real, x: K)
    requires x in keys
    ensures SumOver(keys, f) == SumOver(keys - {x}, f) + f(x)
  {
    var k :| k in keys && SumOver(keys, f) == SumOver(keys - {k}, f) + f(k);
    if k == x {
    } else {
      SumRemove(keys - {k}, f, x);
      SumRemove(keys - {x}, f, k);
      assert keys - {k} - {x} == keys - {x} - {k};
    }
  }

  lemma {:induction false} SumCong<K(!new)>(keys: set<K>, f: K -> real, g: K -> real)
    requires forall k :: k in keys ==> f(k) == g(k)
    ensures SumOver(keys, f) == SumOver(keys, g)
  {
    if keys == {} {
    } else {
      var k :| k in keys;
      SumRemove(keys, f, k);
      SumRemove(keys, g, k);
      SumCong(keys - {k}, f, g);
    }
  }

  lemma {:induction false} SumAdd<K(!new)>(keys: set<K>, f: K -> real, g: K -> real, h: K -> real)
    requires forall k :: k in keys ==> h(k) == f(k) + g(k)
    ensures SumOver(keys, h) == SumOver(keys, f) + SumOver(keys, g)
  {
    if keys == {} {
    } else {
      var k :| k in keys;
      SumRemove(keys, f, k); SumRemove(keys, g, k); SumRemove(keys, h, k);
      SumAdd(keys - {k}, f, g, h);
    }
  }

  lemma {:induction false} SumScale<K(!new)>(keys: set<K>, c: real, f: K -> real, h: K -> real)
    requires forall k :: k in keys ==> h(k) == c * f(k)
    ensures SumOver(keys, h) == c * SumOver(keys, f)
  {
    if keys == {} {
    } else {
      var k :| k in keys;
      SumRemove(keys, f, k); SumRemove(keys, h, k);
      SumScale(keys - {k}, c, f, h);
      assert c * (SumOver(keys - {k}, f) + f(k)) == c * SumOver(keys - {k}, f) + c * f(k);
    }
  }

  lemma {:induction false} SumLe<K(!new)>(keys: set<K>, f: K -> real, g: K -> real)
    requires forall k :: k in keys ==> f(k) <= g(k)
    ensures SumOver(keys, f) <= SumOver(keys, g)
  {
    if keys == {} {
    } else {
      var k :| k in keys;
      SumRemove(keys, f, k);
      SumRemove(keys, g, k);
      SumLe(keys - {k}, f, g);
    }
  }

  /** Keys where the function vanishes do not matter. */
  lemma {:induction false} SumSupport<K(!new)>(keys: set<K>, more: set<K>, f: K -> real)
    requires keys <= more && forall k :: k in more && k !in keys ==> f(k) == 0.0
    ensures SumOver(more, f) == SumOver(keys, f)
    decreases |more|
  {
    if more == keys {
    } else {
      var k :| k in more && k !in keys;
      SumRemove(more, f, k);
      SumSupport(keys, more - {k}, f);
    }
  }

  lemma SubsetSize<T>(A: set<T>, B: set<T>)
    requires A <= B
    ensures |A| <= |B|
  {
    assert B == A + (B - A);
    assert A !! (B - A);
  }

  /** A set being worked through, in no particular order. */
  ghost predicate Split<T(!new)>(all: set<T>, done: set<T>, todo: set<T>) { done + todo == all && done !! todo }

  lemma SplitStart<T(!new)>(all: set<T>)
    ensures Split(all, {}, all)
  {
  }

  lemma SplitStep<T(!new)>(all: set<T>, done: set<T>, todo: set<T>, x: T)
    requires Split(all, done, todo) && x in todo
    ensures Split(all, done + {x}, todo - {x}) && x in all && x !in done && |todo - {x}| < |todo|
  {
    assert todo == (todo - {x}) + {x};
  }

  lemma SplitEnd<T(!new)>(all: set<T>, done: set<T>)
    requires Split(all, done, {})
    ensures done == all
  {
  }
}
