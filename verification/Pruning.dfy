/** Dominance pruning with pinned baselines (lean_rgc/audit_pruning.py). */
module Pruning {
  import opened Sums
  import Sorting

  /** key is the prune key; baselines are the ids of the rows this one is compared against. */
  datatype Row = Row(id: string, key: string, score: real, cost: real, baselines: set<string>)

  predicate Better(a: Row, b: Row) { a.score > b.score || (a.score == b.score && a.cost < b.cost) }

  /** The winner of every key: the first of its best rows. */
  function Best(rows: seq<Row>): map<string, Row> {
    if rows == [] then map[]
    else
      var before, r := Best(rows[..|rows| - 1]), rows[|rows| - 1];
      if r.key in before && !Better(r, before[r.key]) then before else before[r.key := r]
  }

  function Ids(rows: seq<Row>): set<string> { set r | r in rows :: r.id }

  function WinnerIds(best: map<string, Row>): set<string> { set k | k in best :: best[k].id }

  /** Ids of the offered baselines of winners. */
  function Pinned(best: map<string, Row>, ids: set<string>): set<string> {
    set k, b | k in best && b in best[k].baselines && b in ids :: b
  }

  function KeptIds(rows: seq<Row>): set<string> { WinnerIds(Best(rows)) + Pinned(Best(rows), Ids(rows)) }

  function Filter(rows: seq<Row>, kept: set<string>): seq<Row> {
    if rows == [] then []
    else Filter(rows[..|rows| - 1], kept) + if rows[|rows| - 1].id in kept then [rows[|rows| - 1]] else []
  }

  function Prune(rows: seq<Row>): seq<Row> { Filter(rows, KeptIds(rows)) }

  lemma {:induction false} FilterMember(rows: seq<Row>, kept: set<string>, r: Row)
    ensures r in Filter(rows, kept) <==> r in rows && r.id in kept
  {
    if rows == [] {
    } else {
      FilterMember(rows[..|rows| - 1], kept, r);
      assert rows == rows[..|rows| - 1] + [rows[|rows| - 1]];
    }
  }

  lemma {:induction false} BestFacts(rows: seq<Row>, r: Row)
    ensures r in rows ==> r.key in Best(rows) && !Better(r, Best(rows)[r.key])
    ensures r.key in Best(rows) ==> Best(rows)[r.key] in rows && Best(rows)[r.key].key == r.key
  {
    if rows == [] {
    } else {
      var before, x := rows[..|rows| - 1], rows[|rows| - 1];
      BestFacts(before, r);
      assert rows == before + [x];
    }
  }

  lemma BestAt(rows: seq<Row>, k: string)
    requires k in Best(rows)
    ensures Best(rows)[k] in rows && Best(rows)[k].key == k
  {
    BestFacts(rows, Row("", k, 0.0, 0.0, {}));
  }

  /** Every input row is represented: some output row has its prune key and is at least as good. */
  lemma EveryRowRepresented(rows: seq<Row>, r: Row)
    requires r in rows
    ensures exists o ::
      && o in Prune(rows) && o.key == r.key
      && (o.score > r.score || (o.score == r.score && o.cost <= r.cost))
  {
    BestFacts(rows, r);
    var o := Best(rows)[r.key];
    assert o.id in WinnerIds(Best(rows));
    FilterMember(rows, KeptIds(rows), o);
  }

  /** Nothing else is kept: an output row's id is a winner's or that of a winner's baseline; and each
      offered baseline of a winner is in the output. */
  lemma OutputIsJustified(rows: seq<Row>, id: string)
    ensures id in Ids(Prune(rows)) <==> id in WinnerIds(Best(rows)) || id in Pinned(Best(rows), Ids(rows))
  {
    if id in Ids(Prune(rows)) {
      var r :| r in Prune(rows) && r.id == id;
      FilterMember(rows, KeptIds(rows), r);
    }
    if id in KeptIds(rows) {
      if id in WinnerIds(Best(rows)) {
        var k :| k in Best(rows) && Best(rows)[k].id == id;
        BestAt(rows, k);
      }
      var r :| r in rows && r.id == id;
      FilterMember(rows, KeptIds(rows), r);
    }
  }

  // ----- What is kept, in terms of the rows -----

  /** Row i beats every other row with its key: larger score, then smaller cost, then the earlier row. */
  ghost predicate Wins(rows: seq<Row>, i: nat) {
    && i < |rows|
    && forall j :: 0 <= j < |rows| && j != i && rows[j].key == rows[i].key ==>
         || rows[i].score > rows[j].score
         || (rows[i].score == rows[j].score
             && (rows[i].cost < rows[j].cost || (rows[i].cost == rows[j].cost && i < j)))
  }

  lemma NewWinner(before: seq<Row>, x: Row, i: nat)
    requires Wins(before, i)
    ensures if x.key == before[i].key && Better(x, before[i]) then Wins(before + [x], |before|)
            else Wins(before + [x], i)
  {
  }

  lemma {:induction false} BestMeaning(rows: seq<Row>, k: string)
    ensures k in Best(rows) <==> exists i: nat :: i < |rows| && rows[i].key == k
    ensures k in Best(rows) ==> exists i: nat :: Wins(rows, i) && rows[i].key == k && rows[i] == Best(rows)[k]
  {
    if rows == [] {
    } else {
      var before, x := rows[..|rows| - 1], rows[|rows| - 1];
      BestMeaning(before, k);
      assert rows == before + [x];
      BestStep(before, x);
      hide Best;
      if k in Best(before) {
        var i: nat :| Wins(before, i) && before[i].key == k && before[i] == Best(before)[k];
        NewWinner(before, x, i);
        assert rows[i].key == k;
      } else if x.key == k {
        assert Wins(rows, |before|);
      }
    }
  }

  /** A winner has this identifier, or is compared against the row that has it. */
  ghost predicate Stays(rows: seq<Row>, id: string) {
    exists i: nat :: Wins(rows, i) && (rows[i].id == id || id in rows[i].baselines)
  }

  ghost function StaysIn(rows: seq<Row>): Row -> bool { (r: Row) => Stays(rows, r.id) }

  lemma KeptMeaning(rows: seq<Row>, r: Row)
    requires r in rows
    ensures r.id in KeptIds(rows) <==> Stays(rows, r.id)
  {
    hide Best;
    if r.id in KeptIds(rows) {
      var k :| k in Best(rows) && (Best(rows)[k].id == r.id || r.id in Best(rows)[k].baselines);
      BestMeaning(rows, k);
    }
    if Stays(rows, r.id) {
      var i: nat :| i < |rows| && Wins(rows, i) && (rows[i].id == r.id || r.id in rows[i].baselines);
      WinnerIsBest(rows, i);
      assert r.id in Ids(rows);
    }
  }

  lemma WinnerIsBest(rows: seq<Row>, i: nat)
    requires Wins(rows, i)
    ensures rows[i].key in Best(rows) && Best(rows)[rows[i].key] == rows[i]
  {
    hide Best;
    BestMeaning(rows, rows[i].key);
  }

  lemma {:induction false} FilterIsWhere(rows: seq<Row>, kept: set<string>, p: Row -> bool)
    requires forall r :: r in rows ==> (p(r) <==> r.id in kept)
    ensures Filter(rows, kept) == Sorting.Where(rows, p)
  {
    if rows == [] {
    } else {
      var before, x := rows[..|rows| - 1], rows[|rows| - 1];
      assert rows == before + [x];
      FilterIsWhere(before, kept, p);
      Sorting.WhereLast(before, x, p);
      FilterStep(before, x, kept);
    }
  }

  /** Pruning keeps, in order, the rows that win or that a winner is compared against. */
  lemma PruneMeaning(rows: seq<Row>)
    ensures Prune(rows) == Sorting.Where(rows, StaysIn(rows))
  {
    hide KeptIds, Stays;
    forall r | r in rows ensures StaysIn(rows)(r) <==> r.id in KeptIds(rows) {
      KeptMeaning(rows, r);
    }
    FilterIsWhere(rows, KeptIds(rows), StaysIn(rows));
  }

  lemma BestStep(rows: seq<Row>, r: Row)
    ensures var before := Best(rows);
      Best(rows + [r]) == if r.key in before && !Better(r, before[r.key]) then before else before[r.key := r]
  {
    assert (rows + [r])[..|rows|] == rows;
  }

  lemma FilterStep(rows: seq<Row>, r: Row, kept: set<string>)
    ensures Filter(rows + [r], kept) == if r.id in kept then Filter(rows, kept) + [r] else Filter(rows, kept)
  {
    assert (rows + [r])[..|rows|] == rows;
    assert Filter(rows, kept) + [] == Filter(rows, kept);
  }

  /** Filtering keeps a winner that survives it. */
  lemma {:induction false} FilterKeepsWinner(rows: seq<Row>, kept: set<string>, k: string)
    ensures k in Best(rows) && Best(rows)[k].id in kept ==>
      k in Best(Filter(rows, kept)) && Best(Filter(rows, kept))[k] == Best(rows)[k]
    ensures k in Best(Filter(rows, kept)) ==>
      k in Best(rows) && !Better(Best(Filter(rows, kept))[k], Best(rows)[k])
  {
    hide Best, Filter;
    if rows == [] {
      NoRows(kept);
    } else {
      var before, r := rows[..|rows| - 1], rows[|rows| - 1];
      FilterKeepsWinner(before, kept, k);
      assert rows == before + [r];
      BestStep(before, r);
      FilterStep(before, r, kept);
      BestStep(Filter(before, kept), r);
    }
  }

  lemma NoRows(kept: set<string>)
    ensures Best([]) == map[] && Filter([], kept) == [] && Ids([]) == {}
  {
  }

  lemma SameWinners(rows: seq<Row>)
    ensures Best(Prune(rows)) == Best(rows)
  {
    var kept := KeptIds(rows);
    forall k ensures k in Best(rows) <==> k in Best(Prune(rows))
      ensures k in Best(rows) ==> Best(Prune(rows))[k] == Best(rows)[k]
    {
      FilterKeepsWinner(rows, kept, k);
      assert k in Best(rows) ==> Best(rows)[k].id in WinnerIds(Best(rows));
    }
  }

  lemma {:induction false} FilterAll(rows: seq<Row>, kept: set<string>)
    requires forall r :: r in rows ==> r.id in kept
    ensures Filter(rows, kept) == rows
  {
    if rows == [] {
    } else {
      FilterAll(rows[..|rows| - 1], kept);
      assert rows[|rows| - 1] in rows;
    }
  }

  /** Pruning twice is pruning once. */
  lemma PruneIdempotent(rows: seq<Row>)
    ensures Prune(Prune(rows)) == Prune(rows)
  {
    var out := Prune(rows);
    SameWinners(rows);
    forall r | r in out ensures r.id in KeptIds(out) {
      FilterMember(rows, KeptIds(rows), r);
      if r.id in Pinned(Best(rows), Ids(rows)) {
        assert r.id in Ids(out);
      }
    }
    FilterAll(out, KeptIds(out));
  }

  // ----- Counting -----

  ghost predicate Distinct(rows: seq<Row>) {
    forall i, j :: 0 <= i < j < |rows| ==> rows[i].id != rows[j].id
  }

  datatype Counts = Counts(duplicate: nat, dominated: nat)

  function Tally(rows: seq<Row>): Counts {
    if rows == [] then Counts(0, 0)
    else
      var t, best, r := Tally(rows[..|rows| - 1]), Best(rows[..|rows| - 1]), rows[|rows| - 1];
      if r.key !in best then t
      else if r.score == best[r.key].score && r.cost == best[r.key].cost then t.(duplicate := t.duplicate + 1)
      else t.(dominated := t.dominated + 1)
  }

  /** The two counters count the rows that are not winners. */
  lemma {:induction false} TallyCountsLosers(rows: seq<Row>)
    ensures Tally(rows).duplicate + Tally(rows).dominated + |Best(rows)| == |rows|
  {
    if rows == [] {
    } else {
      TallyCountsLosers(rows[..|rows| - 1]);
      var before, r := Best(rows[..|rows| - 1]), rows[|rows| - 1];
      assert r.key !in before ==> before[r.key := r].Keys == before.Keys + {r.key};
      assert r.key in before ==> before[r.key := r].Keys == before.Keys;
    }
  }

  /** Baselines kept although no winner has their id. */
  function Preserved(rows: seq<Row>): nat {
    |Pinned(Best(rows), Ids(rows)) - WinnerIds(Best(rows))|
  }

  /** The identity between the reported counters. */
  ghost predicate CountsAgree(rows: seq<Row>) {
    |rows| - |Prune(rows)| + Preserved(rows) == Tally(rows).duplicate + Tally(rows).dominated
  }

  lemma DistinctTail(before: seq<Row>, r: Row)
    requires Distinct(before + [r])
    ensures Distinct(before) && r.id !in Ids(before) && Ids(before + [r]) == Ids(before) + {r.id}
  {
    var rows := before + [r];
    forall x | x in before ensures x.id != r.id {
      var i :| 0 <= i < |before| && before[i] == x;
      assert rows[i].id != rows[|before|].id;
    }
    forall i, j | 0 <= i < j < |before| ensures before[i].id != before[j].id {
      assert rows[i].id != rows[j].id;
    }
    AppendIds(before, r);
  }

  lemma AppendIds(before: seq<Row>, r: Row)
    ensures Ids(before + [r]) == Ids(before) + {r.id}
  {
    forall id | id in Ids(before) + {r.id} ensures id in Ids(before + [r]) {
      if id in Ids(before) {
        var x :| x in before && x.id == id;
        assert x in before + [r];
      } else {
        assert r in before + [r];
      }
    }
  }

  lemma {:induction false} DistinctFilterSize(rows: seq<Row>, kept: set<string>)
    requires Distinct(rows) && kept <= Ids(rows)
    ensures |Filter(rows, kept)| == |kept|
  {
    hide Filter, Distinct;
    if rows == [] {
      NoRows(kept);
      assert kept == {};
    } else {
      var before, r := rows[..|rows| - 1], rows[|rows| - 1];
      assert rows == before + [r];
      DistinctTail(before, r);
      DistinctFilterSize(before, kept - {r.id});
      assert forall x :: x in before ==> x.id in Ids(before);
      SameFilter(before, kept, kept - {r.id});
      FilterStep(before, r, kept);
    }
  }

  lemma {:induction false} SameFilter(rows: seq<Row>, a: set<string>, b: set<string>)
    requires forall r :: r in rows ==> (r.id in a <==> r.id in b)
    ensures Filter(rows, a) == Filter(rows, b)
  {
    if rows == [] {
    } else {
      SameFilter(rows[..|rows| - 1], a, b);
      assert rows[|rows| - 1] in rows;
    }
  }

  function IdsOver(best: map<string, Row>, keys: set<string>): set<string> {
    set k | k in keys && k in best :: best[k].id
  }

  lemma IdsOverAdd(best: map<string, Row>, keys: set<string>, k: string)
    requires k in best
    ensures IdsOver(best, keys + {k}) == IdsOver(best, keys) + {best[k].id}
  {
  }

  lemma {:induction false} WinnerIdsSize(best: map<string, Row>, keys: set<string>)
    requires keys <= best.Keys
    requires forall k, l :: k in best && l in best && k != l ==> best[k].id != best[l].id
    ensures |IdsOver(best, keys)| == |keys|
  {
    if keys == {} {
    } else {
      var k :| k in keys;
      var rest := keys - {k};
      WinnerIdsSize(best, rest);
      IdsOverAdd(best, rest, k);
      assert rest + {k} == keys;
      assert best[k].id !in IdsOver(best, rest);
    }
  }

  lemma DistinctWinners(rows: seq<Row>)
    requires Distinct(rows)
    ensures |WinnerIds(Best(rows))| == |Best(rows)|
  {
    var best := Best(rows);
    forall k, l | k in best && l in best && k != l ensures best[k].id != best[l].id {
      BestAt(rows, k);
      BestAt(rows, l);
      var i :| 0 <= i < |rows| && rows[i] == best[k];
      var j :| 0 <= j < |rows| && rows[j] == best[l];
      assert i != j;
    }
    WinnerIdsSize(best, best.Keys);
    assert IdsOver(best, best.Keys) == WinnerIds(best);
  }

  lemma KeptSize(rows: seq<Row>)
    ensures |KeptIds(rows)| == |WinnerIds(Best(rows))| + Preserved(rows) && KeptIds(rows) <= Ids(rows)
  {
    var w, p := WinnerIds(Best(rows)), Pinned(Best(rows), Ids(rows));
    assert KeptIds(rows) == w + (p - w);
    forall id | id in w ensures id in Ids(rows) {
      var k :| k in Best(rows) && Best(rows)[k].id == id;
      BestAt(rows, k);
    }
  }

  lemma DistinctCountsAgree(rows: seq<Row>)
    requires Distinct(rows)
    ensures CountsAgree(rows)
  {
    hide Best, Tally, Filter;
    KeptSize(rows);
    DistinctFilterSize(rows, KeptIds(rows));
    DistinctWinners(rows);
    TallyCountsLosers(rows);
  }

  /** Rows with the given ids, one prune key, and the row at position win scoring above the rest. */
  function OneWinner(ids: seq<string>, win: nat): (rows: seq<Row>)
    ensures |rows| == |ids| && forall i :: 0 <= i < |ids| ==> rows[i].id == ids[i]
  {
    seq(|ids|, i requires 0 <= i < |ids| => Row(ids[i], "", if i == win then 1.0 else 0.0, 1.0, {}))
  }

  lemma OneWinnerBest(ids: seq<string>, win: nat)
    requires win < |ids|
    ensures Best(OneWinner(ids, win)) == map["" := OneWinner(ids, win)[win]]
  {
    var rows := OneWinner(ids, win);
    BestFacts(rows, rows[win]);
    var best := Best(rows);
    assert rows[win] in rows;
    var b := best[""];
    var i :| 0 <= i < |rows| && rows[i] == b;
    assert i != win ==> b.score == 0.0;
    forall k | k in best ensures k == "" {
      BestAt(rows, k);
    }
  }

  lemma {:induction false} RepeatedKept(rows: seq<Row>, kept: set<string>, i: nat, j: nat)
    requires i < j < |rows| && rows[i].id in kept && rows[j].id in kept
    ensures |Filter(rows, kept)| >= 2
  {
    var before := rows[..|rows| - 1];
    if j < |before| {
      RepeatedKept(before, kept, i, j);
    } else {
      assert before[i] == rows[i] && before[i] in before;
      FilterMember(before, kept, rows[i]);
    }
  }

  /** The reported counters fit together for all rows carrying the given ids exactly when the ids are distinct. */
  lemma CountsAgreeIff(ids: seq<string>)
    ensures (forall rows: seq<Row> ::
              |rows| == |ids| && (forall i :: 0 <= i < |ids| ==> rows[i].id == ids[i]) ==> CountsAgree(rows))
       <==> forall i, j :: 0 <= i < j < |ids| ==> ids[i] != ids[j]
  {
    if forall i, j :: 0 <= i < j < |ids| ==> ids[i] != ids[j] {
      forall rows: seq<Row> | |rows| == |ids| && forall i :: 0 <= i < |ids| ==> rows[i].id == ids[i]
        ensures CountsAgree(rows)
      {
        DistinctCountsAgree(rows);
      }
    } else {
      var i, j :| 0 <= i < j < |ids| && ids[i] == ids[j];
      DuplicateBreaksCounts(ids, i, j);
    }
  }

  lemma DuplicateBreaksCounts(ids: seq<string>, i: nat, j: nat)
    requires i < j < |ids| && ids[i] == ids[j]
    ensures !CountsAgree(OneWinner(ids, i))
  {
    hide Tally;
    var rows := OneWinner(ids, i);
    OneWinnerBest(ids, i);
    TallyCountsLosers(rows);
    assert WinnerIds(Best(rows)) == {ids[i]} by {
      assert Best(rows)[""].id == ids[i];
    }
    assert Pinned(Best(rows), Ids(rows)) == {};
    RepeatedKept(rows, KeptIds(rows), i, j);
  }

  // ----- The loops -----

  datatype Report = Report(pruned: int, counts: Counts, preserved: nat)

  method FindWinners(rows: seq<Row>) returns (best: map<string, Row>, counts: Counts)
    ensures best == Best(rows) && counts == Tally(rows)
  {
    best, counts := map[], Counts(0, 0);
    for n := 0 to |rows|
      invariant best == Best(rows[..n]) && counts == Tally(rows[..n])
    {
      assert rows[..n + 1][..n] == rows[..n];
      var r := rows[n];
      if r.key !in best {
        best := best[r.key := r];
      } else {
        var prev := best[r.key];
        if Better(r, prev) {
          best := best[r.key := r];
          counts := counts.(dominated := counts.dominated + 1);
        } else if r.score == prev.score && r.cost == prev.cost {
          counts := counts.(duplicate := counts.duplicate + 1);
        } else {
          counts := counts.(dominated := counts.dominated + 1);
        }
      }
    }
    assert rows[..|rows|] == rows;
  }

  /** Adds the offered ids among one winner's baselines. */
  method Pin(kept0: set<string>, preserved0: nat, baselines: set<string>, ids: set<string>)
    returns (kept: set<string>, preserved: nat)
    ensures kept == kept0 + baselines * ids && preserved - preserved0 == |kept| - |kept0|
  {
    kept, preserved := kept0, preserved0;
    var todo := baselines;
    ghost var done: set<string> := {};
    SplitStart(baselines);
    assert kept == kept0 + done * ids;
    hide Split;
    while todo != {}
      invariant Split(baselines, done, todo)
      invariant kept == kept0 + done * ids && preserved - preserved0 == |kept| - |kept0|
      decreases |todo|
    {
      var b :| b in todo;
      SplitStep(baselines, done, todo, b);
      if b in ids && b !in kept {
        kept := kept + {b};
        preserved := preserved + 1;
      }
      todo, done := todo - {b}, done + {b};
    }
    SplitEnd(baselines, done);
  }

  function PinnedOver(best: map<string, Row>, keys: set<string>, ids: set<string>): set<string> {
    set k, b | k in keys && k in best && b in best[k].baselines && b in ids :: b
  }

  lemma PinnedOverAdd(best: map<string, Row>, keys: set<string>, ids: set<string>, k: string, w: set<string>)
    requires k in best
    ensures w + PinnedOver(best, keys + {k}, ids) == w + PinnedOver(best, keys, ids) + best[k].baselines * ids
  {
    forall b | b in best[k].baselines * ids ensures b in PinnedOver(best, keys + {k}, ids) {
      assert k in keys + {k};
    }
    forall b | b in PinnedOver(best, keys, ids) ensures b in PinnedOver(best, keys + {k}, ids) {
      var l :| l in keys && l in best && b in best[l].baselines && b in ids;
      assert l in keys + {k};
    }
  }

  method PinAll(best: map<string, Row>, ids: set<string>) returns (kept: set<string>, preserved: nat)
    ensures kept == WinnerIds(best) + Pinned(best, ids) && preserved == |Pinned(best, ids) - WinnerIds(best)|
  {
    kept, preserved := (set k | k in best :: best[k].id), 0;
    var todo := best.Keys;
    ghost var done: set<string> := {};
    SplitStart(best.Keys);
    ghost var w := WinnerIds(best);
    assert kept == w && w == w + PinnedOver(best, done, ids);
    hide Split, PinnedOver, WinnerIds, Pinned;
    while todo != {}
      invariant Split(best.Keys, done, todo)
      invariant kept == w + PinnedOver(best, done, ids) && preserved == |kept| - |w|
      decreases |todo|
    {
      var k :| k in todo;
      SplitStep(best.Keys, done, todo, k);
      PinnedOverAdd(best, done, ids, k, w);
      kept, preserved := Pin(kept, preserved, best[k].baselines, ids);
      todo, done := todo - {k}, done + {k};
    }
    SplitEnd(best.Keys, done);
    PinnedWhole(best, ids);
  }

  lemma PinnedWhole(best: map<string, Row>, ids: set<string>)
    ensures PinnedOver(best, best.Keys, ids) == Pinned(best, ids)
    ensures var w, p := WinnerIds(best), Pinned(best, ids); |w + p| == |w| + |p - w|
  {
    var w, p := WinnerIds(best), Pinned(best, ids);
    assert w + p == w + (p - w);
  }

  /** The pruned rows and the counters reported with them. */
  method PruneRows(rows: seq<Row>) returns (output: seq<Row>, report: Report)
    ensures output == Prune(rows) == Sorting.Where(rows, StaysIn(rows))
    ensures report == Report(|rows| - |Prune(rows)|, Tally(rows), Preserved(rows))
  {
    var best, counts := FindWinners(rows);
    var ids := set r | r in rows :: r.id;
    var kept, preserved := PinAll(best, ids);
    PruneMeaning(rows);
    hide Best, Tally, Filter, StaysIn;
    output := [];
    assert Filter(rows[..0], kept) == [] by {
      FilterNone(kept);
    }
    for n := 0 to |rows|
      invariant output == Filter(rows[..n], kept)
    {
      FilterStep(rows[..n], rows[n], kept);
      assert rows[..n + 1] == rows[..n] + [rows[n]];
      if rows[n].id in kept {
        output := output + [rows[n]];
      }
    }
    assert rows[..|rows|] == rows;
    report := Report(|rows| - |output|, counts, preserved);
  }

  lemma FilterNone(kept: set<string>)
    ensures Filter([], kept) == []
  {
  }
}
