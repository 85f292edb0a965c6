/** The concept chart of lean_rgc/face_taxonomy.py: rows carry sets of properties; the closure of a set of
    rows and the concepts generated from the supported properties and their pairs. */
module Concepts {
  import opened Options
  import Sorting
  import opened Sums

  type Props = map<string, set<string>>

  datatype Concept = Concept(extent: set<string>, intent: set<string>)

  // ----- Derivation -----

  function PropsOf(rp: Props, uid: string): set<string> { if uid in rp then rp[uid] else {} }

  function AllProps(rp: Props): set<string> { set u, p | u in rp && p in rp[u] :: p }

  /** The properties shared by every row of a set. */
  function Shared(rp: Props, rows: set<string>): set<string> {
    set p | p in AllProps(rp) && forall u :: u in rows ==> p in PropsOf(rp, u)
  }

  /** The rows that carry all the given properties. */
  function Carriers(rp: Props, intent: set<string>): set<string> { set u | u in rp && intent <= rp[u] }

  function Closure(rp: Props, seed: set<string>): Concept {
    if seed == {} then Concept({}, {})
    else Concept(Carriers(rp, Shared(rp, seed)), Shared(rp, seed))
  }

  /** Both derivation maps return the concept's other half. */
  ghost predicate Fixed(rp: Props, c: Concept) {
    Carriers(rp, c.intent) == c.extent && Shared(rp, c.extent) == c.intent
  }

  /** The two derivations form a Galois connection. */
  lemma Galois(rp: Props, rows: set<string>, intent: set<string>)
    requires rows <= rp.Keys && intent <= AllProps(rp)
    ensures rows <= Carriers(rp, intent) <==> intent <= Shared(rp, rows)
  {
  }

  lemma SharedAntitone(rp: Props, a: set<string>, b: set<string>)
    requires a <= b
    ensures Shared(rp, b) <= Shared(rp, a)
  {
    hide AllProps, PropsOf;
  }

  lemma ClosureExtends(rp: Props, seed: set<string>)
    requires seed <= rp.Keys
    ensures seed <= Carriers(rp, Shared(rp, seed))
    ensures Shared(rp, Carriers(rp, Shared(rp, seed))) == Shared(rp, seed)
  {
    hide AllProps;
    var intent := Shared(rp, seed);
    var extent := Carriers(rp, intent);
    forall u | u in seed ensures u in extent {
      assert forall p :: p in intent ==> p in PropsOf(rp, u);
    }
    SharedAntitone(rp, seed, extent);
    forall p | p in intent ensures p in Shared(rp, extent) {
      forall u | u in extent ensures p in PropsOf(rp, u) {
      }
    }
  }

  /** On a nonempty set of rows the closure contains it, is a fixed point, and is the least such extent. */
  lemma ClosureIsLeast(rp: Props, seed: set<string>, c: Concept)
    requires seed != {} && seed <= rp.Keys
    ensures seed <= Closure(rp, seed).extent && Fixed(rp, Closure(rp, seed))
    ensures Fixed(rp, c) && seed <= c.extent ==> Closure(rp, seed).extent <= c.extent
  {
    hide Shared;
    ClosureExtends(rp, seed);
    if Fixed(rp, c) && seed <= c.extent {
      SharedAntitone(rp, seed, c.extent);
    }
  }

  lemma ClosureMonotone(rp: Props, a: set<string>, b: set<string>)
    requires a != {} && a <= b
    ensures Closure(rp, a).extent <= Closure(rp, b).extent && Closure(rp, b).intent <= Closure(rp, a).intent
  {
  }

  lemma ClosureIdempotent(rp: Props, seed: set<string>)
    requires seed <= rp.Keys
    ensures Closure(rp, Closure(rp, seed).extent) == Closure(rp, seed)
  {
    if seed != {} {
      ClosureIsLeast(rp, seed, Concept({}, {}));
    }
  }

  /** Among concepts, more rows means fewer properties and conversely. */
  lemma OrderIsAntitone(rp: Props, a: Concept, b: Concept)
    requires Fixed(rp, a) && Fixed(rp, b)
    ensures a.extent <= b.extent <==> b.intent <= a.intent
    ensures a.extent == b.extent <==> a.intent == b.intent
  {
    hide AllProps;
    if a.extent <= b.extent {
      forall p | p in b.intent ensures p in a.intent {
        assert p in Shared(rp, b.extent);
        assert p in Shared(rp, a.extent);
      }
    }
    if b.extent <= a.extent {
      forall p | p in a.intent ensures p in b.intent {
        assert p in Shared(rp, a.extent);
        assert p in Shared(rp, b.extent);
      }
    }
  }

  // ----- Generation -----

  function RowsOf(rp: Props, p: string): set<string> { set u | u in rp && p in rp[u] }

  predicate Supported(rp: Props, minSupport: int, p: string) {
    p in AllProps(rp) && |RowsOf(rp, p)| >= minSupport
  }

  /** The row sets that are closed: one per supported property, one per supported pair of frequent
      properties, and the set of all rows. */
  ghost predicate IsSeed(rp: Props, minSupport: int, frequent: seq<string>, seed: set<string>) {
    || (exists p :: Supported(rp, minSupport, p) && seed == RowsOf(rp, p))
    || PairSeed(rp, minSupport, frequent, seed)
    || (rp != map[] && seed == rp.Keys)
  }

  ghost predicate PairSeed(rp: Props, minSupport: int, frequent: seq<string>, seed: set<string>) {
    exists i, j :: 0 <= i < j < |frequent| && PairAt(rp, minSupport, frequent, i, j, seed)
  }

  predicate PairAt(rp: Props, minSupport: int, frequent: seq<string>, i: nat, j: nat, seed: set<string>)
    requires i < |frequent| && j < |frequent|
  {
    seed == RowsOf(rp, frequent[i]) * RowsOf(rp, frequent[j]) && |seed| >= minSupport
  }

  ghost predicate IsConcept(rp: Props, minSupport: int, frequent: seq<string>, c: Concept) {
    |c.extent| >= minSupport && exists seed :: IsSeed(rp, minSupport, frequent, seed) && c == Closure(rp, seed)
  }

  lemma SeedsAreRows(rp: Props, minSupport: int, frequent: seq<string>, seed: set<string>)
    requires IsSeed(rp, minSupport, frequent, seed)
    ensures seed <= rp.Keys
  {
  }

  lemma SeedIsNonempty(rp: Props, minSupport: int, frequent: seq<string>, seed: set<string>)
    requires IsSeed(rp, minSupport, frequent, seed)
    ensures seed == {} ==> minSupport <= 0 && PairSeed(rp, minSupport, frequent, {})
  {
    if p :| Supported(rp, minSupport, p) && seed == RowsOf(rp, p) {
      var u :| u in rp && p in rp[u];
      assert u in seed;
    }
  }

  lemma SeedIsClosed(rp: Props, minSupport: int, frequent: seq<string>, seed: set<string>)
    requires IsSeed(rp, minSupport, frequent, seed) && seed != {}
    ensures Closure(rp, seed).extent == seed && Fixed(rp, Closure(rp, seed))
  {
    hide PairSeed;
    SeedsAreRows(rp, minSupport, frequent, seed);
    ClosureIsLeast(rp, seed, Concept({}, {}));
    var c := Closure(rp, seed);
    if p :| Supported(rp, minSupport, p) && seed == RowsOf(rp, p) {
      CommonIsShared(rp, seed, p);
    } else if PairSeed(rp, minSupport, frequent, seed) {
      PairIsClosed(rp, minSupport, frequent, seed);
    }
  }

  lemma PairIsClosed(rp: Props, minSupport: int, frequent: seq<string>, seed: set<string>)
    requires PairSeed(rp, minSupport, frequent, seed) && seed != {}
    ensures Carriers(rp, Shared(rp, seed)) <= seed
  {
    var i, j :| 0 <= i < j < |frequent| && PairAt(rp, minSupport, frequent, i, j, seed);
    CommonIsShared(rp, seed, frequent[i]);
    CommonIsShared(rp, seed, frequent[j]);
    hide Shared;
  }

  lemma CommonIsShared(rp: Props, seed: set<string>, p: string)
    requires seed != {} && seed <= RowsOf(rp, p)
    ensures p in Shared(rp, seed)
  {
    var u :| u in seed;
    assert u in RowsOf(rp, p);
    forall v | v in seed ensures p in PropsOf(rp, v) {
      assert v in RowsOf(rp, p);
    }
  }

  /** With a positive threshold, as the program passes it, the concepts are exactly the fixed points with
      enough rows whose rows are those of a property, the common rows of a frequent pair, or all rows. */
  lemma ConceptsAreFixedPoints(rp: Props, minSupport: int, frequent: seq<string>, c: Concept)
    requires minSupport >= 1
    ensures IsConcept(rp, minSupport, frequent, c) <==>
      Fixed(rp, c) && |c.extent| >= minSupport && IsSeed(rp, minSupport, frequent, c.extent)
  {
    hide IsSeed;
    if IsConcept(rp, minSupport, frequent, c) {
      var seed :| IsSeed(rp, minSupport, frequent, seed) && c == Closure(rp, seed);
      if seed != {} {
        SeedIsClosed(rp, minSupport, frequent, seed);
      }
    }
    if Fixed(rp, c) && |c.extent| >= minSupport && IsSeed(rp, minSupport, frequent, c.extent) {
      assert c == Closure(rp, c.extent);
    }
  }

  /** A remark on the helper alone: with a threshold that is not positive the empty pair, which is no fixed
      point, counts as a concept exactly when two frequent properties share no row. */
  lemma ConceptsAreFixedIff(rp: Props, minSupport: int, frequent: seq<string>)
    ensures (forall c :: IsConcept(rp, minSupport, frequent, c) ==> Fixed(rp, c))
       <==> !(minSupport <= 0 && rp != map[] && PairSeed(rp, minSupport, frequent, {}))
  {
    hide PairSeed;
    var none := Concept({}, {});
    if minSupport <= 0 && rp != map[] && PairSeed(rp, minSupport, frequent, {}) {
      assert IsSeed(rp, minSupport, frequent, {});
      assert none == Closure(rp, {});
      assert IsConcept(rp, minSupport, frequent, none);
      var u :| u in rp;
      assert u in Carriers(rp, {});
      assert !Fixed(rp, none);
    } else {
      forall c | IsConcept(rp, minSupport, frequent, c) ensures Fixed(rp, c) {
        var seed :| IsSeed(rp, minSupport, frequent, seed) && c == Closure(rp, seed);
        SeedIsNonempty(rp, minSupport, frequent, seed);
        if seed != {} {
          SeedsAreRows(rp, minSupport, frequent, seed);
          ClosureIsLeast(rp, seed, c);
        }
      }
    }
  }

  /** Every supported property contributes the concept with exactly its own rows. */
  lemma PropertyConcept(rp: Props, minSupport: int, frequent: seq<string>, p: string)
    requires Supported(rp, minSupport, p)
    ensures var c := Closure(rp, RowsOf(rp, p));
      IsConcept(rp, minSupport, frequent, c) && c.extent == RowsOf(rp, p) && p in c.intent
  {
    var seed := RowsOf(rp, p);
    var u :| u in rp && p in rp[u];
    assert u in seed;
    ClosureIsLeast(rp, seed, Concept({}, {}));
    assert p in Shared(rp, seed);
    assert Closure(rp, seed).extent == seed;
    assert IsSeed(rp, minSupport, frequent, seed);
  }

  /** Every supported pair of frequent properties contributes the concept with exactly their common rows. */
  lemma PairConcept(rp: Props, minSupport: int, frequent: seq<string>, i: nat, j: nat)
    requires i < j < |frequent| && frequent[i] in AllProps(rp) && frequent[j] in AllProps(rp)
    requires var seed := RowsOf(rp, frequent[i]) * RowsOf(rp, frequent[j]); seed != {} && |seed| >= minSupport
    ensures var seed := RowsOf(rp, frequent[i]) * RowsOf(rp, frequent[j]); var c := Closure(rp, seed);
      IsConcept(rp, minSupport, frequent, c) && c.extent == seed && {frequent[i], frequent[j]} <= c.intent
  {
    var seed := RowsOf(rp, frequent[i]) * RowsOf(rp, frequent[j]);
    assert PairAt(rp, minSupport, frequent, i, j, seed);
    assert IsSeed(rp, minSupport, frequent, seed);
    ClosureIsLeast(rp, seed, Concept({}, {}));
    assert frequent[i] in Shared(rp, seed) && frequent[j] in Shared(rp, seed);
    assert Closure(rp, seed).extent == seed;
  }

  // ----- The emitted list -----

  /** Larger support first, then more properties, then the smaller identifier. */
  predicate Leads(name: Concept -> string, a: Concept, b: Concept) {
    || |a.extent| > |b.extent|
    || (|a.extent| == |b.extent|
        && (|a.intent| > |b.intent| || (|a.intent| == |b.intent| && Sorting.LexLe(name(a), name(b)))))
  }

  /** More rows first, then the smaller name. */
  predicate MoreFrequent(rp: Props, p: string, q: string) {
    |RowsOf(rp, p)| > |RowsOf(rp, q)| || (|RowsOf(rp, p)| == |RowsOf(rp, q)| && Sorting.LexLe(p, q))
  }

  /** Every supported property once, most frequent first. */
  ghost predicate Ranking(rp: Props, minSupport: int, all: seq<string>) {
    && (forall p :: p in all <==> Supported(rp, minSupport, p))
    && (forall i, j :: 0 <= i < j < |all| ==>
          && all[i] != all[j]
          && (|| |RowsOf(rp, all[i])| > |RowsOf(rp, all[j])|
              || (|RowsOf(rp, all[i])| == |RowsOf(rp, all[j])| && Sorting.LexLe(all[i], all[j]))))
  }

  /** The most frequent supported properties, as many as the caller asks. */
  ghost predicate IsFrequent(rp: Props, minSupport: int, maxPairs: int, frequent: seq<string>) {
    exists all :: Ranking(rp, minSupport, all) && frequent == Upto(all, maxPairs)
  }

  /** That leaves nothing open. */
  lemma FrequentIsUnique(rp: Props, minSupport: int, maxPairs: int, frequent: seq<string>, other: seq<string>)
    requires IsFrequent(rp, minSupport, maxPairs, frequent) && IsFrequent(rp, minSupport, maxPairs, other)
    ensures frequent == other
  {
    var s :| Ranking(rp, minSupport, s) && frequent == Upto(s, maxPairs);
    var t :| Ranking(rp, minSupport, t) && other == Upto(t, maxPairs);
    var before := (p, q) => MoreFrequent(rp, p, q);
    FrequencyIsOrder(rp);
    hide Supported, MoreFrequent;
    Sorting.SameMembers(s, t);
    Sorting.SortedIsUnique(s, t, before);
  }

  lemma LeadsIsOrder(name: Concept -> string)
    ensures Sorting.TotalPreorder((a, b) => Leads(name, a, b))
  {
    var before := (a, b) => Leads(name, a, b);
    forall a, b ensures before(a, b) || before(b, a) {
      Sorting.LexTotal(name(a), name(b));
    }
    forall a, b, c | before(a, b) && before(b, c) ensures before(a, c) {
      if Sorting.LexLe(name(a), name(b)) && Sorting.LexLe(name(b), name(c)) {
        Sorting.LexTransitive(name(a), name(b), name(c));
      }
    }
  }

  /** The list before truncation: every concept once, in order. */
  ghost predicate Lists(rp: Props, minSupport: int, frequent: seq<string>, name: Concept -> string, full: seq<Concept>)
  {
    && (forall c :: c in full <==> IsConcept(rp, minSupport, frequent, c))
    && (forall i, j :: 0 <= i < j < |full| ==>
          && full[i] != full[j]
          && (|| |full[i].extent| > |full[j].extent|
              || (|full[i].extent| == |full[j].extent|
                  && (|| |full[i].intent| > |full[j].intent|
                      || (|full[i].intent| == |full[j].intent| && Sorting.LexLe(name(full[i]), name(full[j])))))))
  }

  /** Each property's own concept is emitted unless the list is cut, and then only in favour of concepts
      with at least as many rows. */
  lemma PropertyIsEmitted(rp: Props, minSupport: int, frequent: seq<string>, name: Concept -> string,
                          full: seq<Concept>, max: int, p: string)
    requires Lists(rp, minSupport, frequent, name, full) && Supported(rp, minSupport, p)
    ensures (exists c :: c in Upto(full, max) && c.extent == RowsOf(rp, p) && p in c.intent)
         || (max < |full| && forall c :: c in Upto(full, max) ==> |c.extent| >= |RowsOf(rp, p)|)
  {
    PropertyConcept(rp, minSupport, frequent, p);
    var c := Closure(rp, RowsOf(rp, p));
    var i :| 0 <= i < |full| && full[i] == c;
    var head := Upto(full, max);
    if i < |head| {
      assert head[i] == c;
    } else {
      forall d | d in head ensures |d.extent| >= |c.extent| {
        var j :| 0 <= j < |head| && head[j] == d;
        assert head[j] == full[j];
      }
    }
  }

  // ----- The loops -----

  method ClosureOf(rp: Props, seed: set<string>) returns (c: Concept)
    ensures c == Closure(rp, seed)
  {
    if seed == {} {
      return Concept({}, {});
    }
    var intent := CommonProps(rp, seed);
    return Concept((set u | u in rp && intent <= rp[u]), intent);
  }

  method CommonProps(rp: Props, seed: set<string>) returns (intent: set<string>)
    requires seed != {}
    ensures intent == Shared(rp, seed)
  {
    var todo := seed;
    ghost var done: set<string> := {};
    SplitStart(seed);
    hide Shared, PropsOf, Split;
    intent := {};
    var started := false;
    while todo != {}
      invariant Split(seed, done, todo) && (!started <==> done == {})
      invariant started ==> intent == Shared(rp, done)
      decreases |todo|
    {
      var uid :| uid in todo;
      SharedWithOne(rp, done, uid);
      SplitStep(seed, done, todo, uid);
      intent := if started then intent * PropsOf(rp, uid) else PropsOf(rp, uid);
      todo, done, started := todo - {uid}, done + {uid}, true;
    }
    SplitEnd(seed, done);
  }

  lemma SharedWithOne(rp: Props, rows: set<string>, uid: string)
    ensures Shared(rp, rows + {uid}) == if rows == {} then PropsOf(rp, uid) else Shared(rp, rows) * PropsOf(rp, uid)
  {
    if rows != {} {
      var u :| u in rows;
    }
  }

  /** The index of the rows seen so far. */
  ghost predicate Indexed(rp: Props, done: set<string>, index: map<string, set<string>>) {
    forall p :: (p in index <==> RowsOf(rp, p) * done != {}) && (p in index ==> index[p] == RowsOf(rp, p) * done)
  }

  /** The index once uid has been filed under the properties of part. */
  ghost predicate Filing(before: map<string, set<string>>, part: set<string>, uid: string,
                         index: map<string, set<string>>)
  {
    forall p :: (p in index <==> p in before || p in part)
             && (p in index ==> index[p] == (if p in before then before[p] else {}) + if p in part then {uid} else {})
  }

  lemma FilingStep(before: map<string, set<string>>, part: set<string>, uid: string, index: map<string, set<string>>,
                   p: string)
    requires Filing(before, part, uid, index) && p !in part
    ensures Filing(before, part + {p}, uid, index[p := (if p in index then index[p] else {}) + {uid}])
  {
    var next := index[p := (if p in index then index[p] else {}) + {uid}];
    forall q
      ensures q in next ==> next[q] == (if q in before then before[q] else {}) + if q in part + {p} then {uid} else {}
    {
      if q != p && q in next {
        assert next[q] == index[q];
      }
    }
  }

  lemma IndexedStep(rp: Props, done: set<string>, before: map<string, set<string>>, uid: string,
                    index: map<string, set<string>>)
    requires Indexed(rp, done, before) && uid in rp && Filing(before, rp[uid], uid, index)
    ensures Indexed(rp, done + {uid}, index)
  {
    forall p ensures RowsOf(rp, p) * (done + {uid}) == RowsOf(rp, p) * done + if p in rp[uid] then {uid} else {} {
    }
  }

  lemma IndexedAll(rp: Props, index: map<string, set<string>>)
    requires Indexed(rp, rp.Keys, index)
    ensures index.Keys == AllProps(rp) && forall p :: p in index ==> index[p] == RowsOf(rp, p)
  {
    forall p ensures RowsOf(rp, p) * rp.Keys == RowsOf(rp, p) {
    }
    forall p ensures p in index <==> p in AllProps(rp) {
      if p in AllProps(rp) {
        var u :| u in rp && p in rp[u];
        assert u in RowsOf(rp, p) * rp.Keys;
      }
      if p in index {
        var u :| u in RowsOf(rp, p) * rp.Keys;
      }
    }
  }

  /** Inverts the incidence: the rows of every property. */
  method IndexProps(rp: Props) returns (index: map<string, set<string>>)
    ensures index.Keys == AllProps(rp) && forall p :: p in index ==> index[p] == RowsOf(rp, p)
  {
    index := map[];
    var todo := rp.Keys;
    ghost var done: set<string> := {};
    assert Indexed(rp, done, index);
    SplitStart(rp.Keys);
    hide Indexed, Filing, Split;
    while todo != {}
      invariant Split(rp.Keys, done, todo) && Indexed(rp, done, index)
      decreases |todo|
    {
      var uid :| uid in todo;
      SplitStep(rp.Keys, done, todo, uid);
      var filed := File(index, rp[uid], uid);
      IndexedStep(rp, done, index, uid, filed);
      index, todo, done := filed, todo - {uid}, done + {uid};
    }
    SplitEnd(rp.Keys, done);
    IndexedAll(rp, index);
  }

  method File(before: map<string, set<string>>, props: set<string>, uid: string)
    returns (index: map<string, set<string>>)
    ensures Filing(before, props, uid, index)
  {
    index := before;
    var todo := props;
    ghost var part: set<string> := {};
    assert Filing(before, part, uid, index);
    SplitStart(props);
    hide Filing, Split;
    while todo != {}
      invariant Split(props, part, todo) && Filing(before, part, uid, index)
      decreases |todo|
    {
      var p :| p in todo;
      SplitStep(props, part, todo, p);
      FilingStep(before, part, uid, index, p);
      index := index[p := (if p in index then index[p] else {}) + {uid}];
      todo, part := todo - {p}, part + {p};
    }
    SplitEnd(props, part);
  }

  // ----- Assembling the list -----

  lemma SortedMembers<T(!new)>(s: seq<T>, before: (T, T) -> bool)
    requires Sorting.TotalPreorder(before)
    ensures var r := Sorting.Sort(s, before); forall x :: x in r <==> x in s
  {
    Sorting.SortIsSorted(s, before);
    var r := Sorting.Sort(s, before);
    forall x ensures x in r <==> x in s {
      assert x in r <==> x in multiset(r);
      assert x in s <==> x in multiset(s);
    }
  }

  /** The supported properties, most frequent first, cut as the caller asks. */
  method FrequentProps(rp: Props, index: map<string, set<string>>, minSupport: int, maxPairs: int)
    returns (frequent: seq<string>)
    requires index.Keys == AllProps(rp) && forall p :: p in index ==> index[p] == RowsOf(rp, p)
    ensures IsFrequent(rp, minSupport, maxPairs, frequent)
    ensures forall p :: p in frequent ==> p in index
  {
    var supported := set p | p in index && |index[p]| >= minSupport;
    var chosen := ToSeq(supported);
    var before := (p, q) => MoreFrequent(rp, p, q);
    FrequencyIsOrder(rp);
    SortedMembers(chosen, before);
    Sorting.SortIsSorted(chosen, before);
    var sorted := Sorting.Sort(chosen, before);
    Sorting.SameMultisetDistinct(chosen, sorted);
    frequent := Upto(sorted, maxPairs);
    forall p ensures p in chosen <==> Supported(rp, minSupport, p) {
      hide AllProps;
    }
    SortedIsRanking(rp, minSupport, sorted);
    forall p | p in frequent ensures p in index {
      assert p in sorted && p in chosen;
    }
    hide Ranking, MoreFrequent, Supported;
  }

  lemma SortedIsRanking(rp: Props, minSupport: int, all: seq<string>)
    requires forall p :: p in all <==> Supported(rp, minSupport, p)
    requires Distinct(all)
    requires Sorting.SortedBy(all, (p, q) => MoreFrequent(rp, p, q))
    ensures Ranking(rp, minSupport, all)
  {
    hide Supported, RowsOf;
    var before := (p, q) => MoreFrequent(rp, p, q);
    forall i, j | 0 <= i < j < |all| ensures MoreFrequent(rp, all[i], all[j]) {
      assert before(all[i], all[j]);
    }
  }

  lemma FrequencyIsOrder(rp: Props)
    ensures Sorting.TotalPreorder((p, q) => MoreFrequent(rp, p, q))
    ensures Sorting.Antisymmetric((p, q) => MoreFrequent(rp, p, q))
  {
    var before := (p, q) => MoreFrequent(rp, p, q);
    forall a, b | before(a, b) && before(b, a) ensures a == b {
      Sorting.LexTotal(a, b);
    }
    forall a, b ensures before(a, b) || before(b, a) {
      Sorting.LexTotal(a, b);
    }
    forall a, b, c | before(a, b) && before(b, c) ensures before(a, c) {
      if Sorting.LexLe(a, b) && Sorting.LexLe(b, c) {
        Sorting.LexTransitive(a, b, c);
      }
    }
  }

  /** The members of a set in some order, once each. */
  method ToSeq<T(==,!new)>(all: set<T>) returns (s: seq<T>)
    ensures forall x :: x in s <==> x in all
    ensures Distinct(s)
  {
    s := [];
    var todo := all;
    ghost var done: set<T> := {};
    SplitStart(all);
    hide Split;
    while todo != {}
      invariant Split(all, done, todo) && forall x :: x in s <==> x in done
      invariant Distinct(s)
      decreases |todo|
    {
      var x :| x in todo;
      SplitStep(all, done, todo, x);
      s := s + [x];
      todo, done := todo - {x}, done + {x};
    }
    SplitEnd(all, done);
  }

  /** The seeds once the pairs up to position (a, b) have been visited. */
  ghost predicate Gathered(rp: Props, minSupport: int, frequent: seq<string>, a: nat, b: nat, seeds: set<set<string>>) {
    forall seed :: seed in seeds <==> Single(rp, minSupport, seed) || PairBefore(rp, minSupport, frequent, a, b, seed)
  }

  ghost predicate Single(rp: Props, minSupport: int, seed: set<string>) {
    exists p :: Supported(rp, minSupport, p) && seed == RowsOf(rp, p)
  }

  ghost predicate PairBefore(rp: Props, minSupport: int, frequent: seq<string>, a: nat, b: nat, seed: set<string>) {
    exists i, j ::
      0 <= i < j < |frequent| && (i < a || (i == a && j < b)) && PairAt(rp, minSupport, frequent, i, j, seed)
  }

  lemma GatherStart(rp: Props, minSupport: int, frequent: seq<string>, index: map<string, set<string>>,
                    seeds: set<set<string>>)
    requires index.Keys == AllProps(rp) && forall p :: p in index ==> index[p] == RowsOf(rp, p)
    requires seeds == set p | p in index && |index[p]| >= minSupport :: index[p]
    ensures Gathered(rp, minSupport, frequent, 0, 1, seeds)
  {
    hide AllProps, RowsOf, PairAt;
    forall seed | seed in seeds ensures Single(rp, minSupport, seed) {
      var p :| p in index && |index[p]| >= minSupport && seed == index[p];
    }
  }

  lemma GatherStep(rp: Props, minSupport: int, frequent: seq<string>, a: nat, b: nat, seeds: set<set<string>>,
                   extent: set<string>)
    requires Gathered(rp, minSupport, frequent, a, b, seeds) && a < b < |frequent|
    requires extent == RowsOf(rp, frequent[a]) * RowsOf(rp, frequent[b])
    ensures Gathered(rp, minSupport, frequent, a, b + 1, if |extent| >= minSupport then seeds + {extent} else seeds)
  {
    hide RowsOf, Single;
    forall seed ensures PairBefore(rp, minSupport, frequent, a, b + 1, seed)
      <==> PairBefore(rp, minSupport, frequent, a, b, seed) || PairAt(rp, minSupport, frequent, a, b, seed)
    {
    }
  }

  lemma GatherRow(rp: Props, minSupport: int, frequent: seq<string>, a: nat, seeds: set<set<string>>)
    requires Gathered(rp, minSupport, frequent, a, |frequent|, seeds)
    ensures Gathered(rp, minSupport, frequent, a + 1, a + 2, seeds)
  {
    hide PairAt, Single;
    forall seed ensures PairBefore(rp, minSupport, frequent, a + 1, a + 2, seed)
      <==> PairBefore(rp, minSupport, frequent, a, |frequent|, seed)
    {
    }
  }

  lemma GatherEnd(rp: Props, minSupport: int, frequent: seq<string>, a: nat, b: nat, seeds: set<set<string>>,
                  seed: set<string>)
    requires Gathered(rp, minSupport, frequent, a, b, seeds) && a >= |frequent|
    ensures seed in (if rp == map[] then seeds else seeds + {rp.Keys}) <==> IsSeed(rp, minSupport, frequent, seed)
  {
    hide PairAt, Supported, RowsOf;
    assert PairBefore(rp, minSupport, frequent, a, b, seed) <==> PairSeed(rp, minSupport, frequent, seed);
  }

  method CollectSeeds(rp: Props, index: map<string, set<string>>, minSupport: int, frequent: seq<string>)
    returns (seeds: set<set<string>>)
    requires index.Keys == AllProps(rp) && forall p :: p in index ==> index[p] == RowsOf(rp, p)
    requires forall p :: p in frequent ==> p in index
    ensures forall seed :: seed in seeds <==> IsSeed(rp, minSupport, frequent, seed)
  {
    seeds := set p | p in index && |index[p]| >= minSupport :: index[p];
    GatherStart(rp, minSupport, frequent, index, seeds);
    hide AllProps, RowsOf, Gathered, IsSeed;
    for i := 0 to |frequent|
      invariant Gathered(rp, minSupport, frequent, i, i + 1, seeds)
    {
      for j := i + 1 to |frequent|
        invariant Gathered(rp, minSupport, frequent, i, j, seeds)
      {
        assert frequent[i] in frequent && frequent[j] in frequent;
        var extent := index[frequent[i]] * index[frequent[j]];
        GatherStep(rp, minSupport, frequent, i, j, seeds, extent);
        if |extent| >= minSupport {
          seeds := seeds + {extent};
        }
      }
      GatherRow(rp, minSupport, frequent, i, seeds);
    }
    forall seed
      ensures seed in (if rp == map[] then seeds else seeds + {rp.Keys}) <==> IsSeed(rp, minSupport, frequent, seed)
    {
      GatherEnd(rp, minSupport, frequent, |frequent|, |frequent| + 1, seeds, seed);
    }
    if rp != map[] {
      seeds := seeds + {rp.Keys};
    }
  }

  /** The concepts of a rows-by-properties table, in order and cut at maxConcepts; full and frequent are
      the list before the cut and the properties whose pairs were tried. */
  method BuildConcepts(rp: Props, minSupport: int, maxConcepts: int, maxPairs: int, name: Concept -> string)
    returns (concepts: seq<Concept>, full: seq<Concept>, frequent: seq<string>)
    ensures IsFrequent(rp, minSupport, maxPairs, frequent)
    ensures Lists(rp, minSupport, frequent, name, full) && concepts == Upto(full, maxConcepts)
    ensures minSupport >= 1 ==> forall c :: c in concepts ==> Fixed(rp, c) && |c.extent| >= minSupport
  {
    var index := IndexProps(rp);
    frequent := FrequentProps(rp, index, minSupport, maxPairs);
    var seeds := CollectSeeds(rp, index, minSupport, frequent);
    var closed := CloseSeeds(rp, seeds, minSupport);
    var listed := ToSeq(closed);
    full := OrderConcepts(listed, name);
    concepts := Upto(full, maxConcepts);
    hide IsSeed, Closure, Supported, Leads, Fixed;
    forall c | c in concepts && minSupport >= 1 ensures Fixed(rp, c) && |c.extent| >= minSupport {
      assert c in full;
      ConceptsAreFixedPoints(rp, minSupport, frequent, c);
    }
  }

  method CloseSeeds(rp: Props, seeds: set<set<string>>, minSupport: int) returns (closed: set<Concept>)
    ensures forall c ::
      c in closed <==> |c.extent| >= minSupport && exists seed :: seed in seeds && c == Closure(rp, seed)
  {
    closed := {};
    var todo := seeds;
    ghost var done: set<set<string>> := {};
    SplitStart(seeds);
    hide Closure, Split;
    while todo != {}
      invariant Split(seeds, done, todo)
      invariant forall c ::
        c in closed <==> |c.extent| >= minSupport && exists seed :: seed in done && c == Closure(rp, seed)
      decreases |todo|
    {
      var seed :| seed in todo;
      SplitStep(seeds, done, todo, seed);
      var c := ClosureOf(rp, seed);
      if |c.extent| >= minSupport {
        closed := closed + {c};
      }
      todo, done := todo - {seed}, done + {seed};
    }
    SplitEnd(seeds, done);
  }

  method OrderConcepts(listed: seq<Concept>, name: Concept -> string) returns (full: seq<Concept>)
    requires Distinct(listed)
    ensures forall c :: c in full <==> c in listed
    ensures forall i, j :: 0 <= i < j < |full| ==> full[i] != full[j] && Leads(name, full[i], full[j])
  {
    var before := (a, b) => Leads(name, a, b);
    full := Sorting.Sort(listed, before);
    LeadsIsOrder(name);
    SortedMembers(listed, before);
    Sorting.SortIsSorted(listed, before);
    Sorting.SameMultisetDistinct(listed, full);
    forall i, j | 0 <= i < j < |full| ensures Leads(name, full[i], full[j]) {
      assert before(full[i], full[j]);
    }
  }
}
