/** When the paired schedules of Bivariate keep what they are meant to: exact conditions on the rows a
    caller holds, over every way those rows can be bucketed and every choice the conditions leave open.
    The failing inputs queue exactly the keys of their buckets, in sorted order. */
module PairingConditions {
  import opened Bivariate
  import opened Options
  import opened Sums

  function IdList(rows: seq<Row>): (ids: seq<string>)
    ensures |ids| == |rows|
  {
    seq(|rows|, i requires 0 <= i < |rows| => rows[i].id)
  }

  ghost predicate Disjoint(ids: seq<string>, B: set<string>) { forall i :: 0 <= i < |ids| ==> ids[i] !in B }

  /** A baseline row for every identifier. */
  function Baselines(B: set<string>, k: Key): map<string, Row> { map b | b in B :: Row(b, true, "", k) }

  /** The first repetition in a list that has one. */
  lemma {:induction false} FirstRepetition(ids: seq<string>) returns (i: nat, j: nat)
    requires !Distinct(ids)
    ensures i < j < |ids| && ids[i] == ids[j] && Distinct(ids[..j])
  {
    var before := ids[..|ids| - 1];
    if Distinct(before) {
      var x: nat :| x < |before| && before[x] == ids[|before|];
      i, j := x, |before|;
      assert ids[..j] == before;
    } else {
      i, j := FirstRepetition(before);
      assert before[..j] == ids[..j];
    }
  }

  // ----- One bucket -----

  const SAMPLE_KEY := Key("u", "a", "b", "global")

  /** The state of a run whose probes all share one bucket. */
  function OneBucket(k: Key, waiting: seq<Row>, log: seq<Row>, sel: seq<Row>, missing: nat, progressed: bool): State {
    State(map[k := waiting], map[k.uid := if waiting == [] then [] else [k]], log, sel, missing, progressed)
  }

  lemma OneBucketQueued(k: Key, waiting: seq<Row>, log: seq<Row>, sel: seq<Row>, missing: nat, progressed: bool)
    ensures Queued(OneBucket(k, waiting, log, sel, missing, progressed))
  {
    var s := OneBucket(k, waiting, log, sel, missing, progressed);
    assert UidQueue(s, k.uid);
  }

  lemma OneBucketStart(env: Env, k: Key)
    requires env.keys == [k] && WithKey(env.probes, k) != []
    ensures Uids(env.keys) == [k.uid]
    ensures Start(env) == OneBucket(k, WithKey(env.probes, k), [], [], 0, false)
  {
    hide WithKey;
    assert [k][..0] == [];
    assert WithUid([k], k.uid) == [k];
    assert Uids([k]) == [k.uid];
  }

  lemma OneBucketRound(env: Env, k: Key, p: Row, rest: seq<Row>, log: seq<Row>, sel: seq<Row>, missing: nat)
    requires |sel| < env.budget && !PushedBack(env, sel, p)
    requires Queued(OneBucket(k, [p] + rest, log, sel, missing, false))
    ensures Round(env, OneBucket(k, [p] + rest, log, sel, missing, false), [k.uid])
         == OneBucket(k, rest, log + [p], Settle(env, sel, p), missing + Orphans(env, [p]), Appends(env, sel, p))
  {
    hide PushedBack, Settle, Orphan, Appends, Queued;
    var s0 := OneBucket(k, [p] + rest, log, sel, missing, false);
    assert [k][0] == k && [k][1..] == [] && [k.uid][1..] == [] && [] + [k] == [k];
    assert [p][..0] == [];
    assert ([p] + rest)[0] == p && ([p] + rest)[1..] == rest;
    assert PopKey(s0.buckets, [k]) == Popped(Some(k), []);
    assert Visit(env, s0, k.uid) == Serve(env, s0, k, []);
    VisitKeepsQueued(env, s0, k.uid);
  }

  /** One round of a one-bucket run: it serves the first probe, and the run goes on if that was appended. */
  lemma OneBucketRun(env: Env, k: Key, p: Row, rest: seq<Row>, log: seq<Row>, sel: seq<Row>, missing: nat, flag: bool)
    requires |sel| < env.budget && !PushedBack(env, sel, p)
    requires Queued(OneBucket(k, [p] + rest, log, sel, missing, flag))
    requires Queued(OneBucket(k, rest, log + [p], Settle(env, sel, p), missing + Orphans(env, [p]), true))
    ensures Run(env, OneBucket(k, [p] + rest, log, sel, missing, flag), [k.uid])
         == var t := OneBucket(k, rest, log + [p], Settle(env, sel, p), missing + Orphans(env, [p]),
                               Appends(env, sel, p));
            if Appends(env, sel, p) then Run(env, t, [k.uid]) else t
  {
    hide PushedBack, Settle, Orphans, Appends, Queued, Round;
    var s := OneBucket(k, [p] + rest, log, sel, missing, flag);
    OneBucketQueued(k, [p] + rest, log, sel, missing, false);
    OneBucketRound(env, k, p, rest, log, sel, missing);
    assert s.buckets[k] != [] && !Drained(s);
    assert s.(progressed := false) == OneBucket(k, [p] + rest, log, sel, missing, false);
  }

  lemma {:induction false} WithKeyAll(rows: seq<Row>, k: Key)
    requires forall i :: 0 <= i < |rows| ==> rows[i].key == k
    ensures WithKey(rows, k) == rows
  {
    if rows == [] {
    } else {
      WithKeyAll(rows[..|rows| - 1], k);
      assert rows == rows[..|rows| - 1] + [rows[|rows| - 1]];
    }
  }

  /** What the first x probes of the only bucket have led to. */
  function Listed(env: Env, x: nat): seq<Row>
    requires x <= |env.probes|
  {
    Emit(env, env.probes[..x])
  }

  lemma NoneListed(env: Env)
    ensures Listed(env, 0) == []
  {
    assert env.probes[..0] == [];
  }

  /** The x-th probe is served next, and appended. */
  ghost predicate Appending(env: Env, x: nat)
    requires x < |env.probes|
  {
    var sel, p := Listed(env, x), env.probes[x];
    |sel| < env.budget && !PushedBack(env, sel, p) && Appends(env, sel, p)
  }

  function After(env: Env, k: Key, x: nat, flag: bool): State
    requires x <= |env.probes|
  {
    OneBucket(k, env.probes[x..], env.probes[..x], Listed(env, x), 0, flag)
  }

  lemma ListedStep(env: Env, x: nat)
    requires x < |env.probes|
    ensures Listed(env, x + 1) == Settle(env, Listed(env, x), env.probes[x])
    ensures !Orphan(env, env.probes[x]) ==> Orphans(env, [env.probes[x]]) == 0
    ensures env.probes[x..] == [env.probes[x]] + env.probes[x + 1..]
    ensures env.probes[..x + 1] == env.probes[..x] + [env.probes[x]]
  {
    assert env.probes[..x + 1][..x] == env.probes[..x];
    assert [env.probes[x]][..0] == [];
  }

  lemma AfterQueued(env: Env, k: Key, x: nat, flag: bool)
    requires x <= |env.probes|
    ensures Queued(After(env, k, x, flag))
  {
    OneBucketQueued(k, env.probes[x..], env.probes[..x], Listed(env, x), 0, flag);
  }

  /** While probes are appended the run serves one per round. */
  lemma {:induction false} LinearRun(env: Env, k: Key, x: nat, y: nat, flag: bool)
    requires x <= y <= |env.probes| && forall z :: x <= z < y ==> Appending(env, z)
    requires Queued(After(env, k, x, flag)) && Queued(After(env, k, y, flag || x < y))
    ensures Run(env, After(env, k, x, flag), [k.uid]) == Run(env, After(env, k, y, flag || x < y), [k.uid])
    decreases y - x
  {
    hide Queued, Run, Settle, Appends, PushedBack, Orphans, Listed;
    if x == y {
    } else {
      assert Appending(env, x);
      ListedStep(env, x);
      AppendsMeans(env, Listed(env, x), env.probes[x]);
      AfterQueued(env, k, x + 1, true);
      OneBucketRun(env, k, env.probes[x], env.probes[x + 1..], env.probes[..x], Listed(env, x), 0, flag);
      LinearRun(env, k, x + 1, y, true);
    }
  }

  lemma AppendsMeans(env: Env, sel: seq<Row>, p: Row)
    requires Appends(env, sel, p)
    ensures !Orphan(env, p)
  {
  }

  /** The run ends with the first probe that is served but not appended. */
  lemma LastServed(env: Env, k: Key, x: nat)
    requires env.keys == [k] && x < |env.probes| && forall i :: 0 <= i < |env.probes| ==> env.probes[i].key == k
    requires forall z :: 0 <= z < x ==> Appending(env, z)
    requires var sel, p := Listed(env, x), env.probes[x];
      |sel| < env.budget && !Orphan(env, p) && !PushedBack(env, sel, p) && !Appends(env, sel, p)
    ensures Outcome(env).selected == Listed(env, x + 1)
  {
    hide Queued, Run, Start, Settle, Appends, PushedBack, Orphans, Appending, Orphan, Listed, WithKey;
    WithKeyAll(env.probes, k);
    OneBucketStart(env, k);
    StartQueued(env);
    NoneListed(env);
    assert env.probes[0..] == env.probes && env.probes[..0] == [];
    AfterQueued(env, k, 0, false);
    AfterQueued(env, k, x, 0 < x);
    LinearRun(env, k, 0, x, false);
    ListedStep(env, x);
    AfterQueued(env, k, x + 1, true);
    OneBucketRun(env, k, env.probes[x], env.probes[x + 1..], env.probes[..x], Listed(env, x), 0, 0 < x);
  }

  // ----- What one probe adds -----

  lemma SettlePlain(env: Env, sel: seq<Row>, p: Row)
    requires !Orphan(env, p) && !NewBaseline(env, sel, p) && p.id !in Ids(sel) && |sel| < env.budget
    ensures Settle(env, sel, p) == sel + [p] && Appends(env, sel, p) && !PushedBack(env, sel, p)
  {
  }

  lemma SettlePair(env: Env, sel: seq<Row>, p: Row)
    requires !Orphan(env, p) && NewBaseline(env, sel, p) && |sel| + 2 <= env.budget
    requires p.id !in Ids(sel) && p.id != env.baselines[p.baselineId].id
    ensures Settle(env, sel, p) == sel + [env.baselines[p.baselineId]] + [p]
    ensures Appends(env, sel, p) && !PushedBack(env, sel, p)
  {
  }

  /** A probe whose identifier is taken, or for which no place is left, still pulls in its baseline. */
  lemma SettleDangling(env: Env, sel: seq<Row>, p: Row)
    requires !Orphan(env, p) && NewBaseline(env, sel, p) && |sel| + (if env.required then 2 else 1) <= env.budget
    requires p.id in Ids(sel + [env.baselines[p.baselineId]]) || |sel| + 1 == env.budget
    ensures Settle(env, sel, p) == sel + [env.baselines[p.baselineId]]
    ensures !Appends(env, sel, p) && !PushedBack(env, sel, p)
  {
    assert Prepared(env, sel, p) + [] == Prepared(env, sel, p);
  }

  // ----- Required pairs: repeated identifiers -----

  /** One bucket in which only the repeated probe, at position j, names the baseline c. */
  function RepeatEnv(ids: seq<string>, j: nat, c: string, B: set<string>, k: Key): (env: Env)
    ensures IdList(env.probes) == ids && env.baselines.Keys == B && env.required
    ensures forall x :: 0 <= x < |ids| ==> env.probes[x] == Row(ids[x], false, if x == j then c else "", k)
  {
    Env(Baselines(B, k), seq(|ids|, x requires 0 <= x < |ids| => Row(ids[x], false, if x == j then c else "", k)),
        [k], |ids| + 3, true)
  }

  lemma RepeatIsProper(ids: seq<string>, j: nat, c: string, B: set<string>, k: Key)
    ensures Proper(RepeatEnv(ids, j, c, B, k))
  {
    var env := RepeatEnv(ids, j, c, B, k);
    forall r | r in env.probes ensures !r.isBaseline && r.key in env.keys {
      var x :| 0 <= x < |env.probes| && env.probes[x] == r;
    }
  }

  /** The baseline with the empty identifier, when offered, comes in with the first probe. */
  function Opening(env: Env, x: nat): seq<Row> { if "" in env.baselines && x > 0 then [env.baselines[""]] else [] }

  lemma RepeatIds(ids: seq<string>, j: nat, c: string, B: set<string>, k: Key, x: nat, id: string)
    requires x <= j < |ids|
    ensures var env := RepeatEnv(ids, j, c, B, k);
      id in Ids(Opening(env, x) + env.probes[..x]) <==> (id == "" && "" in B && x > 0) || id in ids[..x]
  {
    var env := RepeatEnv(ids, j, c, B, k);
    var sel := Opening(env, x) + env.probes[..x];
    if id in Ids(sel) {
      var r :| r in sel && r.id == id;
      if r in env.probes[..x] {
        var y :| 0 <= y < x && env.probes[y] == r;
        assert ids[..x][y] == id;
      }
    }
    if id in ids[..x] {
      var y :| 0 <= y < x && ids[..x][y] == id;
      assert env.probes[..x][y].id == id && env.probes[..x][y] in sel;
    } else if id == "" && "" in B && x > 0 {
      assert env.baselines[""] in sel;
    }
  }

  lemma {:induction false} RepeatListed(ids: seq<string>, j: nat, c: string, B: set<string>, k: Key, x: nat)
    requires x <= j < |ids| && Distinct(ids[..j]) && Disjoint(ids, B)
    ensures var env := RepeatEnv(ids, j, c, B, k);
      Listed(env, x) == Opening(env, x) + env.probes[..x] && forall z :: 0 <= z < x ==> Appending(env, z)
  {
    hide Settle, Appends, PushedBack, Ids, Listed;
    var env := RepeatEnv(ids, j, c, B, k);
    if x == 0 {
      NoneListed(env);
    } else {
      RepeatListed(ids, j, c, B, k, x - 1);
      ListedStep(env, x - 1);
      var sel, p := Listed(env, x - 1), env.probes[x - 1];
      RepeatIds(ids, j, c, B, k, x - 1, p.id);
      RepeatIds(ids, j, c, B, k, x - 1, "");
      FreshAt(ids[..j], x - 1);
      assert ids[..j][..x - 1] == ids[..x - 1] && ids[..j][x - 1] == p.id;
      if "" in B && x == 1 {
        assert sel == [];
        SettlePair(env, sel, p);
      } else {
        SettlePlain(env, sel, p);
      }
    }
  }

  lemma FreshAt(ids: seq<string>, x: nat)
    requires Distinct(ids) && x < |ids|
    ensures ids[x] !in ids[..x]
  {
  }

  lemma RepeatDangles(ids: seq<string>, i: nat, j: nat, c: string, B: set<string>, k: Key)
    requires i < j < |ids| && ids[i] == ids[j] && Distinct(ids[..j]) && Disjoint(ids, B) && c in B && c != ""
    ensures !Followed(Outcome(RepeatEnv(ids, j, c, B, k)).selected)
  {
    hide Outcome, Settle, Appends, PushedBack, Ids;
    var env := RepeatEnv(ids, j, c, B, k);
    RepeatListed(ids, j, c, B, k, j);
    ListedStep(env, j);
    var sel, p := Listed(env, j), env.probes[j];
    hide Listed;
    RepeatIds(ids, j, c, B, k, j, c);
    RepeatIds(ids, j, c, B, k, j, p.id);
    assert ids[..j][i] == p.id;
    assert c !in ids[..j];
    MoreIds(sel, env.baselines[c], p.id);
    SettleDangling(env, sel, p);
    LastServed(env, k, j);
    assert !Introduces(Outcome(env).selected, |sel|);
  }

  lemma MoreIds(sel: seq<Row>, r: Row, id: string)
    requires id in Ids(sel)
    ensures id in Ids(sel + [r])
  {
    var x :| x in sel && x.id == id;
    assert x in sel + [r];
  }

  // ----- Two buckets -----

  lemma TwoKeys(front: Key, back: Key)
    requires front.uid == back.uid
    ensures Uids([front, back]) == [front.uid] && WithUid([front, back], front.uid) == [front] + [back]
  {
    assert [front, back][..1] == [front] && [front][..0] == [];
    assert Uids([front]) == [front.uid] && WithUid([front], front.uid) == [front];
  }

  lemma VisitFront(env: Env, s: State, k: Key, queue: seq<Key>)
    requires Queued(s) && k.uid in s.queues && s.queues[k.uid] == [k] + queue && k in s.buckets && s.buckets[k] != []
    requires var p := s.buckets[k][0]; !PushedBack(env, s.selected, p) && !Appends(env, s.selected, p)
    ensures var t := Visit(env, s, k.uid);
      t.selected == Settle(env, s.selected, s.buckets[k][0]) && t.progressed == s.progressed
  {
    hide Orphan, Settle, Appends, PushedBack;
    assert ([k] + queue)[0] == k && ([k] + queue)[1..] == queue;
    assert Visit(env, s, k.uid) == Serve(env, s, k, queue);
  }

  /** When the probe at the front of the only queue is not appended, the first round is the last. */
  lemma FrontEndsRun(env: Env, front: Key, back: Key, p: Row)
    requires env.keys == [front, back] && front.uid == back.uid && env.budget > 0
    requires WithKey(env.probes, front) != [] && p == WithKey(env.probes, front)[0]
    requires !PushedBack(env, [], p) && !Appends(env, [], p)
    ensures Outcome(env).selected == Settle(env, [], p)
  {
    hide Settle, Appends, PushedBack, WithKey, WithUid, Uids, Visit, Queued;
    var s := Start(env);
    StartQueued(env);
    TwoKeys(front, back);
    assert front in env.keys && front.uid in s.queues;
    VisitFront(env, s, front, [back]);
    VisitKeepsQueued(env, s, front.uid);
    var t := Visit(env, s, front.uid);
    assert s.(progressed := false) == s && s.buckets[front] != [];
    assert [front.uid][1..] == [];
    assert Round(env, s, [front.uid]) == t;
  }

  // ----- Required pairs: a probe that carries a baseline's identifier -----

  const FRONT := Key("u", "a", "", "global")
  const BACK := Key("u", "b", "", "global")

  /** The probe at position i carries a baseline's identifier, names that baseline, and is served first. */
  function ClashEnv(ids: seq<string>, i: nat, B: set<string>, budget: nat, required: bool): (env: Env)
    ensures IdList(env.probes) == ids && env.baselines.Keys == B && env.budget == budget && env.required == required
    ensures forall x :: 0 <= x < |ids| ==>
      env.probes[x] == if x == i then Row(ids[x], false, ids[x], FRONT) else Row(ids[x], false, "", BACK)
  {
    Env(Baselines(B, FRONT),
        seq(|ids|, x requires 0 <= x < |ids| =>
          if x == i then Row(ids[x], false, ids[x], FRONT) else Row(ids[x], false, "", BACK)),
        if |ids| == 1 then [FRONT] else [FRONT, BACK], budget, required)
  }

  lemma ClashIsProper(ids: seq<string>, i: nat, B: set<string>, budget: nat, required: bool)
    requires i < |ids|
    ensures Proper(ClashEnv(ids, i, B, budget, required))
  {
    var env := ClashEnv(ids, i, B, budget, required);
    forall r | r in env.probes ensures !r.isBaseline && r.key in env.keys {
      var x :| 0 <= x < |env.probes| && env.probes[x] == r;
    }
  }

  /** The baseline is scheduled, its probe is not, and the run is over. */
  lemma ClashOutcome(ids: seq<string>, i: nat, B: set<string>, budget: nat, required: bool)
    requires i < |ids| && ids[i] in B && budget >= if required then 2 else 1
    ensures var env := ClashEnv(ids, i, B, budget, required);
      Outcome(env).selected == [env.baselines[ids[i]]]
  {
    hide Outcome, WithKey, Settle, Appends, PushedBack;
    var env := ClashEnv(ids, i, B, budget, required);
    var p, b := env.probes[i], env.baselines[ids[i]];
    assert b in [] + [b];
    SettleDangling(env, [], p);
    if |ids| == 1 {
      NoneListed(env);
      ListedStep(env, 0);
      hide Listed;
      LastServed(env, FRONT, 0);
    } else {
      WithKeyMember(env.probes, FRONT, p);
      var q := WithKey(env.probes, FRONT)[0];
      WithKeyMember(env.probes, FRONT, q);
      var x :| 0 <= x < |ids| && env.probes[x] == q;
      assert x == i;
      FrontEndsRun(env, FRONT, BACK, p);
    }
  }

  lemma ClashDangles(ids: seq<string>, i: nat, B: set<string>, budget: nat, required: bool)
    requires i < |ids| && ids[i] in B && budget >= if required then 2 else 1
    ensures !Followed(Outcome(ClashEnv(ids, i, B, budget, required)).selected)
  {
    hide Outcome;
    ClashOutcome(ids, i, B, budget, required);
    assert !Introduces(Outcome(ClashEnv(ids, i, B, budget, required)).selected, 0);
  }

  // ----- Required pairs: the condition -----

  /** Every input with required pairs whose probes carry these identifiers and whose baselines carry those
      of B has each scheduled baseline directly followed by a probe naming it. */
  ghost predicate AlwaysFollowed(ids: seq<string>, B: set<string>) {
    forall env | Proper(env) && env.required && IdList(env.probes) == ids && env.baselines.Keys == B ::
      Followed(Outcome(env).selected)
  }

  lemma PairableFromIds(env: Env)
    requires Disjoint(IdList(env.probes), env.baselines.Keys)
    requires Distinct(IdList(env.probes)) || env.baselines.Keys <= {""}
    ensures Pairable(env)
  {
    var ids := IdList(env.probes);
    forall r | r in env.probes ensures r.id !in env.baselines {
      var x :| 0 <= x < |env.probes| && env.probes[x] == r;
      assert ids[x] == r.id;
    }
    if Distinct(ids) {
      forall i, j | 0 <= i < j < |env.probes| ensures env.probes[i].id != env.probes[j].id {
        assert ids[i] == env.probes[i].id && ids[j] == env.probes[j].id;
      }
    }
  }

  /** With required pairs, pairing holds for all inputs exactly when no probe carries a baseline's
      identifier and no identifier is repeated; a repetition is harmless only when no baseline has a
      nonempty identifier. */
  lemma AlwaysFollowedIff(ids: seq<string>, B: set<string>)
    ensures AlwaysFollowed(ids, B) <==> Disjoint(ids, B) && (Distinct(ids) || B <= {""})
  {
    hide Outcome, Proper, Followed, Distinct;
    if !Disjoint(ids, B) {
      var i :| 0 <= i < |ids| && ids[i] in B;
      ClashIsProper(ids, i, B, 2, true);
      ClashDangles(ids, i, B, 2, true);
    } else if !Distinct(ids) && !(B <= {""}) {
      var i, j := FirstRepetition(ids);
      var c :| c in B && c != "";
      RepeatIsProper(ids, j, c, B, SAMPLE_KEY);
      RepeatDangles(ids, i, j, c, B, SAMPLE_KEY);
    } else {
      forall env | Proper(env) && env.required && IdList(env.probes) == ids && env.baselines.Keys == B
        ensures Followed(Outcome(env).selected)
      {
        PairableFromIds(env);
        BaselinesIntroduceProbes(env);
      }
    }
  }

  // ----- Optional pairs -----

  /** The offered baselines that some probe names. */
  function NamedBaselines(env: Env): set<string> {
    set p | p in env.probes && p.baselineId in env.baselines :: p.baselineId
  }

  lemma {:induction false} IdsBound(rows: seq<Row>)
    ensures |Ids(rows)| <= |rows|
  {
    if rows == [] {
    } else {
      var before, r := rows[..|rows| - 1], rows[|rows| - 1];
      IdsBound(before);
      AppendId(before, r);
      assert rows == before + [r];
    }
  }

  lemma {:induction false} DistinctIdsCount(rows: seq<Row>)
    requires DistinctIds(rows)
    ensures |Ids(rows)| == |rows|
  {
    if rows == [] {
    } else {
      var before, r := rows[..|rows| - 1], rows[|rows| - 1];
      assert rows == before + [r];
      assert forall i :: 0 <= i < |before| ==> before[i].id != r.id;
      assert r.id !in Ids(before);
      DistinctIdsCount(before);
      AppendId(before, r);
    }
  }

  lemma SelectedIds(env: Env, log: seq<Row>, sel: seq<Row>)
    requires Safe(env, log, sel) && forall r :: r in log ==> r in env.probes
    ensures Ids(sel) <= Ids(env.probes) + NamedBaselines(env)
  {
    hide Orphan, Seen;
    forall r | r in sel ensures r.id in Ids(env.probes) + NamedBaselines(env) {
      var i :| 0 <= i < |sel| && sel[i] == r;
      assert Placed(env, log, sel, i);
    }
  }

  lemma SafeFacts(env: Env, log: seq<Row>, sel: seq<Row>)
    requires Safe(env, log, sel)
    ensures DistinctIds(sel)
    ensures sel != [] && sel[|sel| - 1].isBaseline ==> Named(log, sel[|sel| - 1].id)
  {
    assert sel != [] ==> Placed(env, log, sel, |sel| - 1);
  }

  lemma SmallerSet(a: set<string>, b: set<string>, c: set<string>, x: string)
    requires a <= (b + c) - {x} && x in b
    ensures |a| < |b| + |c|
  {
    SubsetSize(a, (b + c) - {x});
    assert |(b + c) - {x}| == |b + c| - 1;
    assert b + c == b + (c - b);
    SubsetSize(c - b, c);
  }

  /** A listed probe has its baseline before it, so never in the last place. */
  lemma LastIsNotNamed(env: Env, log: seq<Row>, sel: seq<Row>, i: nat)
    requires Safe(env, log, sel) && i < |sel| && !sel[i].isBaseline && sel[i].baselineId in env.baselines
    ensures sel[i].baselineId != sel[|sel| - 1].id
  {
    hide Orphan;
    assert Placed(env, log, sel, i);
    var j :| 0 <= j < i && sel[j].id == sel[i].baselineId;
  }

  /** A probe that names the last entry is not in the list. */
  lemma LastIsUnused(env: Env, log: seq<Row>, sel: seq<Row>, p: Row)
    requires CleanIds(env) && Safe(env, log, sel) && (forall r :: r in log ==> r in env.probes) && p in env.probes
    requires sel != [] && sel[|sel| - 1].isBaseline && p.baselineId == sel[|sel| - 1].id
    ensures p.id !in Ids(sel)
  {
    hide Orphan, Seen, DistinctIds;
    assert Placed(env, log, sel, |sel| - 1);
    forall i | 0 <= i < |sel| ensures sel[i].id != p.id {
      assert Placed(env, log, sel, i);
      if sel[i].id == p.id {
        SameIdSameRow(env.probes, sel[i], p);
        LastIsNotNamed(env, log, sel, i);
      }
    }
  }

  lemma UnusedLeavesRoom(env: Env, log: seq<Row>, sel: seq<Row>, p: Row)
    requires Safe(env, log, sel) && (forall r :: r in log ==> r in env.probes)
    requires p in env.probes && p.id !in Ids(sel)
    ensures |sel| < |env.probes| + |NamedBaselines(env)|
  {
    SelectedIds(env, log, sel);
    SafeFacts(env, log, sel);
    DistinctIdsCount(sel);
    IdsBound(env.probes);
    hide Safe, NamedBaselines;
    assert p.id in Ids(env.probes);
    hide Ids;
    assert Ids(sel) <= (Ids(env.probes) + NamedBaselines(env)) - {p.id};
    SmallerSet(Ids(sel), Ids(env.probes), NamedBaselines(env), p.id);
  }

  lemma FullListEndsInProbe(env: Env, log: seq<Row>, sel: seq<Row>)
    requires CleanIds(env) && Safe(env, log, sel) && forall r :: r in log ==> r in env.probes
    requires sel != [] && sel[|sel| - 1].isBaseline
    ensures |sel| < |env.probes| + |NamedBaselines(env)|
  {
    SafeFacts(env, log, sel);
    hide Safe, CleanIds, NamedBaselines;
    var p :| p in log && p.baselineId == sel[|sel| - 1].id;
    LastIsUnused(env, log, sel, p);
    UnusedLeavesRoom(env, log, sel, p);
  }

  lemma OutcomeFacts(env: Env)
    requires Proper(env) && CleanIds(env)
    ensures var t := Outcome(env);
      Safe(env, t.log, t.selected) && AlmostFollowed(env, t.selected) && forall r :: r in t.log ==> r in env.probes
  {
    OutcomeInv(env);
    hide Outcome, Emit, Orphans, Accounted, CleanIds, Safe, Followed, AlmostFollowed;
  }

  /** With room for every probe and every named baseline nothing dangles, whether or not pairs are
      required. */
  lemma AmpleBudgetFollowed(env: Env)
    requires Proper(env) && CleanIds(env) && env.budget >= |env.probes| + |NamedBaselines(env)|
    ensures Followed(Outcome(env).selected)
  {
    hide Outcome, CleanIds, Safe, NamedBaselines;
    OutcomeFacts(env);
    var sel := Outcome(env).selected;
    if sel != [] && sel[|sel| - 1].isBaseline {
      FullListEndsInProbe(env, Outcome(env).log, sel);
    }
  }

  // ----- Optional pairs: failing inputs -----

  /** The probe at position q names the r-th baseline, those before position r one baseline each, and the
      others z. */
  function TightEnv(ids: seq<string>, bs: seq<string>, r: nat, q: nat, z: string, B: set<string>, budget: nat, k: Key):
      (env: Env)
    requires r <= q < |ids| && r < |bs|
    ensures IdList(env.probes) == ids && env.baselines.Keys == B && !env.required && env.budget == budget
    ensures env.keys == [k] && forall x :: 0 <= x < |ids| ==>
      env.probes[x] == Row(ids[x], false, if x < r then bs[x] else if x == q then bs[r] else z, k)
  {
    Env(Baselines(B, k),
        seq(|ids|, x requires 0 <= x < |ids| =>
          Row(ids[x], false, if x < r then bs[x] else if x == q then bs[r] else z, k)),
        [k], budget, false)
  }

  lemma TightIsProper(ids: seq<string>, bs: seq<string>, r: nat, q: nat, z: string, B: set<string>, budget: nat, k: Key)
    requires r <= q < |ids| && r < |bs|
    ensures Proper(TightEnv(ids, bs, r, q, z, B, budget, k))
  {
    var env := TightEnv(ids, bs, r, q, z, B, budget, k);
    forall p | p in env.probes ensures !p.isBaseline && p.key in env.keys {
      var x :| 0 <= x < |env.probes| && env.probes[x] == p;
    }
  }

  function Least(a: nat, b: nat): nat { if a < b then a else b }

  /** The identifiers in a list are the first x of ids and the first y of bs. */
  ghost predicate Covered(sel: seq<Row>, ids: seq<string>, x: nat, bs: seq<string>, y: nat)
    requires x <= |ids| && y <= |bs|
  {
    && |sel| == x + y
    && (forall r :: r in sel ==> r.id in ids[..x] || r.id in bs[..y])
    && (forall i :: 0 <= i < x ==> ids[i] in Ids(sel))
  }

  ghost predicate Drawn(bs: seq<string>, B: set<string>) { Distinct(bs) && forall i :: 0 <= i < |bs| ==> bs[i] in B }

  lemma NewId(sel: seq<Row>, ids: seq<string>, x: nat, bs: seq<string>, y: nat, B: set<string>)
    requires x <= |ids| && y <= |bs| && Covered(sel, ids, x, bs, y)
    requires Distinct(ids) && Drawn(bs, B) && Disjoint(ids, B)
    ensures x < |ids| ==> ids[x] !in Ids(sel) && ids[x] !in B
    ensures y < |bs| ==> bs[y] !in Ids(sel)
  {
  }

  lemma BaselineDrawn(bs: seq<string>, B: set<string>, i: nat)
    requires Drawn(bs, B) && i < |bs|
    ensures bs[i] in B
  {
  }

  lemma MoreCovered(sel: seq<Row>, added: seq<Row>, ids: seq<string>, x: nat, bs: seq<string>, y: nat, t: nat)
    requires x < |ids| && y <= t <= |bs| && t <= y + 1 && Covered(sel, ids, x, bs, y) && |added| == t - y + 1
    requires added[|added| - 1].id == ids[x] && (y < t ==> added[0].id == bs[y])
    ensures Covered(sel + added, ids, x + 1, bs, t)
  {
    assert ids[..x + 1] == ids[..x] + [ids[x]];
    if y < t {
      assert bs[..t] == bs[..y] + [bs[y]];
    }
    forall i | 0 <= i < x + 1 ensures ids[i] in Ids(sel + added) {
      if i < x {
        var r :| r in sel && r.id == ids[i];
        assert r in sel + added;
      } else {
        assert added[|added| - 1] in sel + added;
      }
    }
  }

  /** What the argument needs of the probes that carry the front identifiers. */
  ghost predicate Tight(env: Env, front: seq<string>, bs: seq<string>, r: nat, B: set<string>) {
    && Proper(env) && env.baselines.Keys == B && !env.required && env.budget >= |front| + r + 1
    && r <= |front| < |env.probes| && r < |bs| && Distinct(front) && Drawn(bs, B) && Disjoint(front, B)
    && forall x :: 0 <= x < |front| ==>
         && env.probes[x].id == front[x]
         && if x < r then env.probes[x].baselineId == bs[x] else env.probes[x].baselineId !in B
  }

  lemma TightStep(env: Env, sel: seq<Row>, front: seq<string>, bs: seq<string>, r: nat, B: set<string>, x: nat)
    requires Tight(env, front, bs, r, B) && x < |front| && Covered(sel, front, x, bs, Least(x, r))
    ensures |sel| < env.budget && Appends(env, sel, env.probes[x]) && !PushedBack(env, sel, env.probes[x])
    ensures Covered(Settle(env, sel, env.probes[x]), front, x + 1, bs, Least(x + 1, r))
  {
    hide Settle, Appends, PushedBack, Ids, Distinct, Drawn, Disjoint;
    var p := env.probes[x];
    NewId(sel, front, x, bs, Least(x, r), B);
    assert |sel| == x + Least(x, r);
    if x < r {
      BaselineDrawn(bs, B, x);
      var b := env.baselines[p.baselineId];
      SettlePair(env, sel, p);
      MoreCovered(sel, [b, p], front, x, bs, x, x + 1);
      assert sel + [b] + [p] == sel + [b, p];
    } else {
      SettlePlain(env, sel, p);
      MoreCovered(sel, [p], front, x, bs, r, r);
    }
  }

  lemma NoneCovered(ids: seq<string>, bs: seq<string>)
    ensures Covered([], ids, 0, bs, 0)
  {
  }

  lemma {:induction false} TightListed(env: Env, front: seq<string>, bs: seq<string>, r: nat, B: set<string>, x: nat)
    requires Tight(env, front, bs, r, B) && x <= |front|
    ensures Covered(Listed(env, x), front, x, bs, Least(x, r)) && forall y :: 0 <= y < x ==> Appending(env, y)
  {
    hide Settle, Appends, PushedBack, Covered, Listed;
    if x == 0 {
      NoneListed(env);
      NoneCovered(front, bs);
    } else {
      TightListed(env, front, bs, r, B, x - 1);
      ListedStep(env, x - 1);
      TightStep(env, Listed(env, x - 1), front, bs, r, B, x - 1);
      hide Tight;
    }
  }

  /** The probe at position q pulls its baseline in, and finds no place left or its identifier taken. */
  lemma TightDangles(ids: seq<string>, bs: seq<string>, r: nat, q: nat, z: string, B: set<string>, budget: nat, k: Key)
    requires r <= q < |ids| && r < |bs| && budget >= q + r + 1
    requires Distinct(ids[..q]) && Drawn(bs, B) && Disjoint(ids, B) && z !in B
    requires budget == q + r + 1 || ids[q] in ids[..q]
    ensures !Followed(Outcome(TightEnv(ids, bs, r, q, z, B, budget, k)).selected)
  {
    hide Outcome, Settle, Appends, PushedBack, Distinct, Drawn, Proper;
    var env, front := TightEnv(ids, bs, r, q, z, B, budget, k), ids[..q];
    TightIsProper(ids, bs, r, q, z, B, budget, k);
    BaselineDrawn(bs, B, r);
    TightListed(env, front, bs, r, B, q);
    ListedStep(env, q);
    var sel, p := Listed(env, q), env.probes[q];
    hide Listed, Appending, Tight, Ids;
    NewId(sel, front, q, bs, r, B);
    if p.id in Ids(sel) {
      MoreIds(sel, env.baselines[bs[r]], p.id);
    }
    SettleDangling(env, sel, p);
    LastServed(env, k, q);
    assert !Introduces(Outcome(env).selected, |sel|);
  }

  // ----- Optional pairs: the condition -----

  lemma {:induction false} Enumerated(B: set<string>) returns (bs: seq<string>)
    ensures |bs| == |B| && Drawn(bs, B)
  {
    if B == {} {
      bs := [];
    } else {
      var b :| b in B;
      var rest := Enumerated(B - {b});
      bs := [b] + rest;
    }
  }

  lemma {:induction false} LongerThanAll(B: set<string>) returns (n: nat)
    ensures forall b :: b in B ==> |b| < n
  {
    if B == {} {
      n := 0;
    } else {
      var b :| b in B;
      n := LongerThanAll(B - {b});
      if n <= |b| {
        n := |b| + 1;
      }
    }
  }

  lemma NotAmong(B: set<string>) returns (z: string)
    ensures z !in B
  {
    var n := LongerThanAll(B);
    z := seq(n, _ => 'z');
  }

  /** The same for optional pairs and a given budget. */
  ghost predicate AlwaysFollowedOptional(ids: seq<string>, B: set<string>, budget: nat) {
    forall env | Proper(env) && !env.required && env.budget == budget
                 && IdList(env.probes) == ids && env.baselines.Keys == B ::
      Followed(Outcome(env).selected)
  }

  lemma CleanFromIds(env: Env)
    requires Distinct(IdList(env.probes)) && Disjoint(IdList(env.probes), env.baselines.Keys)
    ensures CleanIds(env)
  {
    var ids := IdList(env.probes);
    PairableFromIds(env);
    forall i, j | 0 <= i < j < |env.probes| ensures env.probes[i].id != env.probes[j].id {
      assert ids[i] == env.probes[i].id && ids[j] == env.probes[j].id;
    }
  }

  /** A probe names at most one baseline. */
  lemma {:induction false} NamedBound(env: Env, probes: seq<Row>)
    requires env.probes == probes
    ensures |NamedBaselines(env)| <= Least(|probes|, |env.baselines.Keys|)
    decreases |probes|
  {
    SubsetSize(NamedBaselines(env), env.baselines.Keys);
    if probes == [] {
      assert NamedBaselines(env) == {};
    } else {
      var before, last := probes[..|probes| - 1], probes[|probes| - 1];
      assert probes == before + [last];
      var shorter := env.(probes := before);
      NamedBound(shorter, before);
      assert NamedBaselines(env) <= NamedBaselines(shorter) + {last.baselineId};
      SubsetSize(NamedBaselines(env), NamedBaselines(shorter) + {last.baselineId});
    }
  }

  lemma NothingDangles(env: Env)
    requires Proper(env) && (env.probes == [] || env.baselines == map[] || env.budget == 0)
    ensures Followed(Outcome(env).selected)
  {
    OutcomeInv(env);
    var o := Outcome(env);
    hide Outcome, Emit, Orphans, Accounted, Orphan, Seen;
    forall i | 0 <= i < |o.selected| ensures !o.selected[i].isBaseline {
      assert Placed(env, o.log, o.selected, i);
    }
  }

  lemma DistinctPrefix(ids: seq<string>, n: nat)
    requires Distinct(ids) && n <= |ids|
    ensures Distinct(ids[..n])
  {
  }

  /** A positive budget, probes and baselines, but not both clean identifiers and ample room. */
  lemma OptionalFails(ids: seq<string>, B: set<string>, budget: nat)
    requires budget > 0 && ids != [] && B != {}
    requires !(Distinct(ids) && Disjoint(ids, B) && budget >= |ids| + Least(|ids|, |B|))
    ensures !AlwaysFollowedOptional(ids, B, budget)
  {
    hide Outcome, Proper, Followed, Distinct, Drawn;
    if i :| 0 <= i < |ids| && ids[i] in B {
      ClashIsProper(ids, i, B, budget, false);
      ClashDangles(ids, i, B, budget, false);
    } else {
      var bs := Enumerated(B);
      var z := NotAmong(B);
      var r, q: nat := 0, 0;
      if Distinct(ids) {
        q := Least(budget, |ids|) - 1;
        r := budget - 1 - q;
        DistinctPrefix(ids, q);
      } else {
        var i, j := FirstRepetition(ids);
        q := Least(j, budget - 1);
        DistinctPrefix(ids[..j], q);
        assert ids[..j][..q] == ids[..q] && ids[..j][i] == ids[j];
      }
      TightIsProper(ids, bs, r, q, z, B, budget, SAMPLE_KEY);
      TightDangles(ids, bs, r, q, z, B, budget, SAMPLE_KEY);
    }
  }

  /** With optional pairs, pairing holds for all inputs within a budget exactly when that budget is zero, or
      one kind of row is absent, or no identifier occurs twice, as a probe's or a baseline's, and there is
      room for every probe and for as many baselines as the probes can name. */
  lemma OptionalFollowedIff(ids: seq<string>, B: set<string>, budget: nat)
    ensures AlwaysFollowedOptional(ids, B, budget) <==>
      || budget == 0 || ids == [] || B == {}
      || (Distinct(ids) && Disjoint(ids, B) && budget >= |ids| + Least(|ids|, |B|))
  {
    hide Outcome, Proper, Followed, Distinct, Disjoint;
    if budget == 0 || ids == [] || B == {}
       || (Distinct(ids) && Disjoint(ids, B) && budget >= |ids| + Least(|ids|, |B|)) {
      forall env | Proper(env) && !env.required && env.budget == budget
                   && IdList(env.probes) == ids && env.baselines.Keys == B
        ensures Followed(Outcome(env).selected)
      {
        if budget == 0 || ids == [] || B == {} {
          NothingDangles(env);
        } else {
          CleanFromIds(env);
          NamedBound(env, env.probes);
          AmpleBudgetFollowed(env);
        }
      }
    } else {
      OptionalFails(ids, B, budget);
    }
  }
}
