/** The paired scheduler of lean_rgc/bivariate_contextual_quotient.py: probes wait in buckets, one queue
    of bucket keys per premise use, and the uses are served round-robin; the first probe to name a
    baseline pulls it in just before itself, and is pushed back when the pair does not fit the budget. */
module Bivariate {
  import opened Options

  datatype Key = Key(uid: string, pre: string, post: string, task: string)

  datatype Row = Row(id: string, isBaseline: bool, baselineId: string, key: Key)

  /** The fixed inputs of a run; keys lists the bucket keys in the order they are queued. */
  datatype Env = Env(baselines: map<string, Row>, probes: seq<Row>, keys: seq<Key>, budget: nat, required: bool)

  /** log records the probes taken out of their buckets for good, in order. */
  datatype State = State(buckets: map<Key, seq<Row>>, queues: map<string, seq<Key>>, log: seq<Row>,
                         selected: seq<Row>, missing: nat, progressed: bool)

  // ----- Inputs -----

  function WithKey(rows: seq<Row>, k: Key): seq<Row> {
    if rows == [] then []
    else
      var last := rows[|rows| - 1];
      WithKey(rows[..|rows| - 1], k) + if last.key == k then [last] else []
  }

  function WithUid(keys: seq<Key>, uid: string): seq<Key> {
    if keys == [] then []
    else
      var last := keys[|keys| - 1];
      WithUid(keys[..|keys| - 1], uid) + if last.uid == uid then [last] else []
  }

  /** The premise uses in order of first appearance. */
  function Uids(keys: seq<Key>): seq<string> {
    if keys == [] then []
    else
      var before := Uids(keys[..|keys| - 1]);
      var uid := keys[|keys| - 1].uid;
      if uid in before then before else before + [uid]
  }

  function QueuesOf(keys: seq<Key>): map<string, seq<Key>> { map u | u in Uids(keys) :: WithUid(keys, u) }

  function Ids(rows: seq<Row>): set<string> { set r | r in rows :: r.id }

  ghost predicate DistinctIds(rows: seq<Row>) {
    forall i, j :: 0 <= i < j < |rows| ==> rows[i].id != rows[j].id
  }

  ghost predicate Proper(env: Env) {
    && (forall b :: b in env.baselines ==> env.baselines[b].id == b && env.baselines[b].isBaseline)
    && (forall r :: r in env.probes ==> !r.isBaseline && r.key in env.keys)
  }

  ghost predicate NoBaselineIds(env: Env) { forall r :: r in env.probes ==> r.id !in env.baselines }

  /** Probe identifiers are distinct and none is also a baseline's. */
  ghost predicate CleanIds(env: Env) { DistinctIds(env.probes) && NoBaselineIds(env) }

  /** What required pairing needs of the identifiers: no probe carries a baseline's, and none is repeated
      unless the only baseline, if any, is the one with the empty identifier. */
  ghost predicate Pairable(env: Env) {
    NoBaselineIds(env) && (DistinctIds(env.probes) || env.baselines.Keys <= {""})
  }

  // ----- One probe -----

  /** The probe names a baseline that was not offered, and pairs are required. */
  predicate Orphan(env: Env, p: Row) {
    env.required && p.baselineId != "" && p.baselineId !in env.baselines
  }

  predicate NewBaseline(env: Env, sel: seq<Row>, p: Row) {
    p.baselineId in env.baselines && p.baselineId !in Ids(sel)
  }

  predicate PushedBack(env: Env, sel: seq<Row>, p: Row) {
    !Orphan(env, p) && NewBaseline(env, sel, p) && |sel| + (if env.required then 2 else 1) > env.budget
  }

  function Prepared(env: Env, sel: seq<Row>, p: Row): seq<Row> {
    if NewBaseline(env, sel, p) then sel + [env.baselines[p.baselineId]] else sel
  }

  predicate Appends(env: Env, sel: seq<Row>, p: Row) {
    !Orphan(env, p) && p.id !in Ids(Prepared(env, sel, p)) && |Prepared(env, sel, p)| < env.budget
  }

  function Settle(env: Env, sel: seq<Row>, p: Row): seq<Row> {
    if Orphan(env, p) then sel
    else Prepared(env, sel, p) + if Appends(env, sel, p) then [p] else []
  }

  // ----- One visit, one round, the run -----

  datatype Popped = Popped(key: Option<Key>, rest: seq<Key>)

  /** Drops keys of empty buckets from the front of a queue; the first key with probes is taken out. */
  function PopKey(buckets: map<Key, seq<Row>>, queue: seq<Key>): (r: Popped)
    requires forall k :: k in queue ==> k in buckets
    ensures forall k :: k in r.rest ==> k in queue
    ensures r.key.None? ==> forall k :: k in queue ==> buckets[k] == []
    ensures r.key.Some? ==> r.key.value in queue && buckets[r.key.value] != []
    ensures r.key.Some? ==> forall k :: k in queue && buckets[k] != [] && k != r.key.value ==> k in r.rest
  {
    if queue == [] then Popped(None, [])
    else if buckets[queue[0]] != [] then Popped(Some(queue[0]), queue[1..])
    else PopKey(buckets, queue[1..])
  }

  /** Every waiting bucket is queued under its premise use, and queues hold bucket keys only. */
  ghost predicate Queued(s: State) {
    && (forall k :: k in s.buckets && s.buckets[k] != [] ==> k.uid in s.queues && k in s.queues[k.uid])
    && (forall u :: u in s.queues ==> UidQueue(s, u))
  }

  ghost predicate UidQueue(s: State, u: string)
    requires u in s.queues
  {
    forall k :: k in s.queues[u] ==> k in s.buckets && k.uid == u
  }

  lemma FlagKeepsQueued(s: State)
    requires Queued(s)
    ensures Queued(s.(progressed := false))
  {
    var t := s.(progressed := false);
    forall u | u in t.queues ensures UidQueue(t, u) {
      assert UidQueue(s, u);
    }
  }

  /** What one visit does with the key it popped. */
  function Serve(env: Env, s: State, k: Key, queue: seq<Key>): State
    requires k in s.buckets && s.buckets[k] != []
  {
    var p, rest := s.buckets[k][0], s.buckets[k][1..];
    var requeued := if rest != [] then queue + [k] else queue;
    if PushedBack(env, s.selected, p) then
      s.(queues := s.queues[k.uid := [k] + requeued])
    else
      State(s.buckets[k := rest], s.queues[k.uid := requeued], s.log + [p], Settle(env, s.selected, p),
            s.missing + (if Orphan(env, p) then 1 else 0), s.progressed || Appends(env, s.selected, p))
  }

  function Visit(env: Env, s: State, uid: string): State
    requires Queued(s) && uid in s.queues
  {
    assert UidQueue(s, uid);
    var Popped(k, queue) := PopKey(s.buckets, s.queues[uid]);
    if k.None? then s.(queues := s.queues[uid := queue]) else Serve(env, s, k.value, queue)
  }

  lemma ServeKeepsQueued(env: Env, s: State, k: Key, queue: seq<Key>)
    requires Queued(s) && k.uid in s.queues && k in s.buckets && s.buckets[k] != []
    requires forall x :: x in queue ==> x in s.queues[k.uid]
    requires forall x :: x in s.queues[k.uid] && s.buckets[x] != [] && x != k ==> x in queue
    ensures Queued(Serve(env, s, k, queue))
    ensures Serve(env, s, k, queue).queues.Keys == s.queues.Keys
  {
    hide PushedBack, Settle, Appends, Orphan;
    assert UidQueue(s, k.uid);
    var t := Serve(env, s, k, queue);
    forall u | u in t.queues ensures UidQueue(t, u) {
      assert UidQueue(s, u);
    }
  }

  lemma VisitKeepsQueued(env: Env, s: State, uid: string)
    requires Queued(s) && uid in s.queues
    ensures Queued(Visit(env, s, uid)) && Visit(env, s, uid).queues.Keys == s.queues.Keys
  {
    hide Serve;
    assert UidQueue(s, uid);
    var Popped(k, queue) := PopKey(s.buckets, s.queues[uid]);
    if k.Some? {
      ServeKeepsQueued(env, s, k.value, queue);
    } else {
      var t := Visit(env, s, uid);
      forall u | u in t.queues ensures UidQueue(t, u) {
        assert UidQueue(s, u);
      }
    }
  }

  lemma VisitGrows(env: Env, s: State, uid: string)
    requires Queued(s) && uid in s.queues
    ensures var t := Visit(env, s, uid);
      && |s.selected| <= |t.selected| && |s.log| <= |t.log| && s.missing <= t.missing
      && (s.progressed ==> t.progressed)
      && (t.progressed && !s.progressed ==> |s.selected| < |t.selected|)
  {
  }

  function Round(env: Env, s: State, uids: seq<string>): (t: State)
    requires Queued(s) && forall u :: u in uids ==> u in s.queues
    ensures Queued(t) && t.queues.Keys == s.queues.Keys
    ensures |s.selected| <= |t.selected| && |s.log| <= |t.log| && s.missing <= t.missing
    ensures s.progressed ==> t.progressed
    ensures t.progressed && !s.progressed ==> |s.selected| < |t.selected|
    decreases |uids|
  {
    if uids == [] || |s.selected| >= env.budget then s
    else
      VisitKeepsQueued(env, s, uids[0]); VisitGrows(env, s, uids[0]);
      Round(env, Visit(env, s, uids[0]), uids[1..])
  }

  predicate Drained(s: State) { forall k :: k in s.buckets ==> s.buckets[k] == [] }

  /** Rounds follow one another until the budget is met, the buckets are empty, or a round appends no probe. */
  function Run(env: Env, s: State, uids: seq<string>): (t: State)
    requires Queued(s) && forall u :: u in uids ==> u in s.queues
    ensures Queued(t) && |s.log| <= |t.log|
    decreases env.budget - |s.selected|
  {
    if |s.selected| >= env.budget || Drained(s) then s
    else
      var t := Round(env, s.(progressed := false), uids);
      if t.progressed then Run(env, t, uids) else t
  }

  function Start(env: Env): State {
    State(map k | k in env.keys :: WithKey(env.probes, k),
          QueuesOf(env.keys), [], [], 0, false)
  }

  lemma {:induction false} WithKeyMember(rows: seq<Row>, k: Key, r: Row)
    ensures r in WithKey(rows, k) <==> r in rows && r.key == k
  {
    if rows == [] {
    } else {
      WithKeyMember(rows[..|rows| - 1], k, r);
      assert rows == rows[..|rows| - 1] + [rows[|rows| - 1]];
    }
  }

  lemma {:induction false} WithKeyDistinct(rows: seq<Row>, k: Key)
    requires DistinctIds(rows)
    ensures DistinctIds(WithKey(rows, k))
  {
    if rows == [] {
    } else {
      var before, last := rows[..|rows| - 1], rows[|rows| - 1];
      WithKeyDistinct(before, k);
      forall r | r in WithKey(before, k) ensures r.id != last.id {
        WithKeyMember(before, k, r);
        var i :| 0 <= i < |before| && before[i] == r;
        assert rows[i].id != rows[|rows| - 1].id;
      }
    }
  }

  lemma {:induction false} WithUidMember(keys: seq<Key>, uid: string, k: Key)
    ensures k in WithUid(keys, uid) <==> k in keys && k.uid == uid
  {
    if keys == [] {
    } else {
      WithUidMember(keys[..|keys| - 1], uid, k);
      assert keys == keys[..|keys| - 1] + [keys[|keys| - 1]];
    }
  }

  lemma {:induction false} UidsMember(keys: seq<Key>, uid: string)
    ensures uid in Uids(keys) <==> exists k :: k in keys && k.uid == uid
  {
    if keys == [] {
    } else {
      UidsMember(keys[..|keys| - 1], uid);
      assert keys == keys[..|keys| - 1] + [keys[|keys| - 1]];
    }
  }

  lemma StartQueued(env: Env)
    ensures Queued(Start(env)) && forall u :: u in Uids(env.keys) ==> u in Start(env).queues
  {
    var s := Start(env);
    forall k | k in s.buckets && s.buckets[k] != [] ensures k.uid in s.queues && k in s.queues[k.uid] {
      UidsMember(env.keys, k.uid);
      WithUidMember(env.keys, k.uid, k);
    }
    forall u | u in s.queues ensures UidQueue(s, u) {
      forall k | k in s.queues[u] ensures k in s.buckets && k.uid == u {
        WithUidMember(env.keys, u, k);
      }
    }
  }

  // ----- Safety of the selection -----

  ghost predicate Seen(sel: seq<Row>, i: nat, id: string)
    requires i <= |sel|
  {
    exists j :: 0 <= j < i && sel[j].id == id
  }

  ghost predicate Named(log: seq<Row>, id: string) { exists p :: p in log && p.baselineId == id }

  /** Within budget, no identifier twice; baselines are offered and named by a served probe, probes come
      from the log, and a probe naming an offered baseline has it earlier in the list. */
  ghost predicate Safe(env: Env, log: seq<Row>, sel: seq<Row>) {
    && |sel| <= env.budget && DistinctIds(sel)
    && forall i :: 0 <= i < |sel| ==> Placed(env, log, sel, i)
  }

  ghost predicate Placed(env: Env, log: seq<Row>, sel: seq<Row>, i: nat)
    requires i < |sel|
  {
    var r := sel[i];
    if r.isBaseline then r.id in env.baselines && r == env.baselines[r.id] && Named(log, r.id)
    else r in log && !Orphan(env, r) && (r.baselineId in env.baselines ==> Seen(sel, i, r.baselineId))
  }

  lemma AppendSafe(env: Env, log: seq<Row>, sel: seq<Row>, r: Row)
    requires Safe(env, log, sel) && |sel| < env.budget && r.id !in Ids(sel)
    requires Placed(env, log, sel + [r], |sel|)
    ensures Safe(env, log, sel + [r])
  {
    hide Orphan;
    var t := sel + [r];
    forall i | 0 <= i < |t| ensures Placed(env, log, t, i) {
      if i < |sel| {
        assert Placed(env, log, sel, i);
        if Seen(sel, i, sel[i].baselineId) {
          var j :| 0 <= j < i && sel[j].id == sel[i].baselineId;
          assert t[j].id == t[i].baselineId;
        }
      }
    }
    forall i | 0 <= i < |sel| ensures t[i].id != r.id {
      assert sel[i] in sel;
    }
  }

  lemma LongerLogSafe(env: Env, log: seq<Row>, sel: seq<Row>, p: Row)
    requires Safe(env, log, sel)
    ensures Safe(env, log + [p], sel)
  {
    hide Orphan, Seen;
    forall i | 0 <= i < |sel| ensures Placed(env, log + [p], sel, i) {
      assert Placed(env, log, sel, i);
      if Named(log, sel[i].id) {
        var q :| q in log && q.baselineId == sel[i].id;
        assert q in log + [p];
      }
    }
  }

  lemma PreparedSafe(env: Env, log: seq<Row>, sel: seq<Row>, p: Row)
    requires Proper(env) && Safe(env, log, sel) && p in log
    requires !Orphan(env, p) && !PushedBack(env, sel, p) && |sel| < env.budget
    ensures Safe(env, log, Prepared(env, sel, p))
    ensures p.baselineId in env.baselines ==> p.baselineId in Ids(Prepared(env, sel, p))
    ensures env.required ==> |Prepared(env, sel, p)| < env.budget
  {
    hide Orphan, Safe;
    if NewBaseline(env, sel, p) {
      var b := env.baselines[p.baselineId];
      assert (sel + [b])[|sel|] == b;
      assert Placed(env, log, sel + [b], |sel|);
      AppendSafe(env, log, sel, b);
      assert b in sel + [b];
    }
  }

  lemma SettleSafe(env: Env, log: seq<Row>, sel: seq<Row>, p: Row)
    requires Proper(env) && Safe(env, log, sel) && p in log && !p.isBaseline
    requires !PushedBack(env, sel, p) && |sel| < env.budget
    ensures Safe(env, log, Settle(env, sel, p))
    ensures Orphan(env, p) || p.id in Ids(Settle(env, sel, p))
            || (!env.required && |Settle(env, sel, p)| >= env.budget)
  {
    hide Orphan, Safe, PushedBack, Prepared;
    if !Orphan(env, p) {
      PreparedSafe(env, log, sel, p);
      var b := Prepared(env, sel, p);
      assert b + [] == b;
      if Appends(env, sel, p) {
        assert p in b + [p];
        if p.baselineId in env.baselines {
          var r :| r in b && r.id == p.baselineId;
          var j :| 0 <= j < |b| && b[j] == r;
          assert (b + [p])[j].id == p.baselineId;
        }
        assert Placed(env, log, b + [p], |b|);
        AppendSafe(env, log, b, p);
      }
    }
  }

  /** Every baseline in the list is directly followed by a probe that names it. */
  ghost predicate Followed(sel: seq<Row>) {
    forall i :: 0 <= i < |sel| && sel[i].isBaseline ==> Introduces(sel, i)
  }

  predicate Introduces(sel: seq<Row>, i: nat)
    requires i < |sel|
  {
    i + 1 < |sel| && !sel[i + 1].isBaseline && sel[i + 1].baselineId == sel[i].id
  }

  /** The same, except that the last entry may be a baseline when it fills the budget. */
  ghost predicate AlmostFollowed(env: Env, sel: seq<Row>) {
    forall i :: 0 <= i < |sel| && sel[i].isBaseline ==>
      Introduces(sel, i) || (i == |sel| - 1 && |sel| == env.budget)
  }

  lemma SettleFollowed(env: Env, sel: seq<Row>, p: Row)
    requires Proper(env) && Followed(sel) && !p.isBaseline
    requires Orphan(env, p) || Appends(env, sel, p) || !NewBaseline(env, sel, p)
    ensures Followed(Settle(env, sel, p))
  {
    hide Orphan, Appends;
    var t := Settle(env, sel, p);
    forall i | 0 <= i < |t| && t[i].isBaseline ensures Introduces(t, i) {
      if i < |sel| {
        assert t[i] == sel[i];
        assert Introduces(sel, i);
      }
    }
  }

  lemma SettleAlmostFollowed(env: Env, sel: seq<Row>, p: Row)
    requires Proper(env) && AlmostFollowed(env, sel) && !p.isBaseline && |sel| < env.budget
    requires p.id !in Ids(Prepared(env, sel, p))
    ensures AlmostFollowed(env, Settle(env, sel, p))
  {
    assert Followed(sel);
    if Orphan(env, p) || Appends(env, sel, p) {
      SettleFollowed(env, sel, p);
    } else {
      hide Orphan;
      var t := Settle(env, sel, p);
      assert t == Prepared(env, sel, p) && |t| == env.budget;
      forall i | 0 <= i < |t| - 1 && t[i].isBaseline ensures Introduces(t, i) {
        assert t[i] == sel[i];
        assert Introduces(sel, i);
      }
    }
  }

  /** When the baseline with the empty identifier is the only one, it opens every list. */
  lemma BlankBaselineComesFirst(env: Env, log: seq<Row>, sel: seq<Row>)
    requires env.required && Safe(env, log, sel) && env.baselines.Keys == {""} && sel != []
    ensures "" in Ids(sel)
  {
    assert Placed(env, log, sel, 0);
    assert sel[0] in sel;
  }

  // ----- The invariant of a run -----

  /** Each bucket is served in input order: what was taken out is a prefix, what waits is the rest. */
  ghost predicate Fifo(env: Env, s: State) {
    && s.buckets.Keys == (set k | k in env.keys)
    && (forall k :: k in s.buckets ==> WithKey(env.probes, k) == WithKey(s.log, k) + s.buckets[k])
    && (forall r :: r in s.log ==> r in env.probes)
  }

  /** The list the log of served probes alone determines. */
  function Emit(env: Env, log: seq<Row>): seq<Row> {
    if log == [] then [] else Settle(env, Emit(env, log[..|log| - 1]), log[|log| - 1])
  }

  function Orphans(env: Env, log: seq<Row>): nat {
    if log == [] then 0 else Orphans(env, log[..|log| - 1]) + if Orphan(env, log[|log| - 1]) then 1 else 0
  }

  /** No served probe is lost unexplained: it is an orphan, or its identifier is scheduled, or pairs are
      optional and a baseline took the last place. */
  ghost predicate Accounted(env: Env, s: State) {
    forall r :: r in s.log ==>
      Orphan(env, r) || r.id in Ids(s.selected) || (!env.required && |s.selected| >= env.budget)
  }

  ghost predicate Inv(env: Env, s: State) {
    && Fifo(env, s) && Safe(env, s.log, s.selected)
    && s.selected == Emit(env, s.log) && s.missing == Orphans(env, s.log)
    && Accounted(env, s)
    && (env.required && Pairable(env) ==> Followed(s.selected))
    && (CleanIds(env) ==> AlmostFollowed(env, s.selected))
  }

  lemma FrontIsUnserved(env: Env, s: State, k: Key)
    requires DistinctIds(env.probes) && Fifo(env, s) && k in s.buckets && s.buckets[k] != []
    ensures s.buckets[k][0] !in s.log
  {
    var p, all, served := s.buckets[k][0], WithKey(env.probes, k), WithKey(s.log, k);
    assert all[|served|] == p;
    FrontIsProbe(env, s, k);
    WithKeyDistinct(env.probes, k);
    forall j | 0 <= j < |served| ensures served[j] != p {
      assert all[j] == served[j];
    }
    WithKeyMember(s.log, k, p);
  }

  lemma FrontIsFresh(env: Env, s: State, k: Key)
    requires Proper(env) && CleanIds(env) && Fifo(env, s) && Safe(env, s.log, s.selected)
    requires k in s.buckets && s.buckets[k] != []
    ensures s.buckets[k][0] in env.probes && s.buckets[k][0].key == k
    ensures s.buckets[k][0].id !in Ids(Prepared(env, s.selected, s.buckets[k][0]))
  {
    hide Orphan, Seen;
    var p, sel := s.buckets[k][0], s.selected;
    FrontIsProbe(env, s, k);
    FrontIsUnserved(env, s, k);
    forall r | r in Prepared(env, sel, p) ensures r.id != p.id {
      if r.id == p.id {
        assert r in sel;
        var i :| 0 <= i < |sel| && sel[i] == r;
        assert Placed(env, s.log, sel, i);
        SameIdSameRow(env.probes, r, p);
      }
    }
  }

  lemma SameIdSameRow(rows: seq<Row>, r: Row, p: Row)
    requires DistinctIds(rows) && r in rows && p in rows && r.id == p.id
    ensures r == p
  {
    var i :| 0 <= i < |rows| && rows[i] == r;
    var j :| 0 <= j < |rows| && rows[j] == p;
    assert i == j;
  }

  lemma FrontIsProbe(env: Env, s: State, k: Key)
    requires Fifo(env, s) && k in s.buckets && s.buckets[k] != []
    ensures s.buckets[k][0] in env.probes && s.buckets[k][0].key == k
  {
    var p := s.buckets[k][0];
    assert WithKey(env.probes, k)[|WithKey(s.log, k)|] == p;
    WithKeyMember(env.probes, k, p);
  }

  lemma WithKeyStep(rows: seq<Row>, p: Row, k: Key)
    ensures WithKey(rows + [p], k) == if p.key == k then WithKey(rows, k) + [p] else WithKey(rows, k)
  {
    assert (rows + [p])[..|rows|] == rows;
    assert WithKey(rows, k) + [] == WithKey(rows, k);
  }

  lemma ServeFifo(env: Env, s: State, k: Key, queue: seq<Key>)
    requires Fifo(env, s) && k in s.buckets && s.buckets[k] != []
    ensures Fifo(env, Serve(env, s, k, queue))
  {
    hide PushedBack, Settle, Orphan, Appends, WithKey;
    FrontIsProbe(env, s, k);
    var t, p := Serve(env, s, k, queue), s.buckets[k][0];
    if !PushedBack(env, s.selected, p) {
      forall x | x in t.buckets ensures WithKey(env.probes, x) == WithKey(t.log, x) + t.buckets[x] {
        WithKeyStep(s.log, p, x);
        if x == k {
          TakeFirst(WithKey(s.log, k), s.buckets[k]);
        }
      }
    }
  }

  lemma TakeFirst(served: seq<Row>, waiting: seq<Row>)
    requires waiting != []
    ensures served + waiting == served + [waiting[0]] + waiting[1..]
  {
  }

  lemma ServeAccounts(env: Env, s: State, k: Key, queue: seq<Key>)
    requires Proper(env) && Accounted(env, s) && Safe(env, s.log, s.selected)
    requires k in s.buckets && s.buckets[k] != [] && s.buckets[k][0] in env.probes && |s.selected| < env.budget
    ensures Accounted(env, Serve(env, s, k, queue))
  {
    hide Orphan, Safe, PushedBack, Appends, NewBaseline;
    var t, p := Serve(env, s, k, queue), s.buckets[k][0];
    if !PushedBack(env, s.selected, p) {
      LongerLogSafe(env, s.log, s.selected, p);
      SettleSafe(env, s.log + [p], s.selected, p);
      forall r | r in s.selected ensures r in t.selected {
      }
    }
  }

  /** The front probe keeps the required pairing. */
  lemma FrontKeepsFollowed(env: Env, s: State, k: Key)
    requires Proper(env) && env.required && Pairable(env) && Fifo(env, s) && Safe(env, s.log, s.selected)
    requires Followed(s.selected) && |s.selected| < env.budget && k in s.buckets && s.buckets[k] != []
    requires !PushedBack(env, s.selected, s.buckets[k][0])
    ensures Followed(Settle(env, s.selected, s.buckets[k][0]))
  {
    hide Fifo, Safe, Followed, Settle, Orphan;
    var p, sel := s.buckets[k][0], s.selected;
    FrontIsProbe(env, s, k);
    if !Orphan(env, p) && NewBaseline(env, sel, p) {
      if DistinctIds(env.probes) {
        FrontIsFresh(env, s, k);
      } else if sel != [] {
        assert env.baselines.Keys == {""};
        BlankBaselineComesFirst(env, s.log, sel);
      }
    }
    SettleFollowed(env, sel, p);
  }

  lemma ServeKeepsInv(env: Env, s: State, k: Key, queue: seq<Key>)
    requires Proper(env) && Inv(env, s) && |s.selected| < env.budget
    requires k in s.buckets && s.buckets[k] != []
    ensures Inv(env, Serve(env, s, k, queue))
  {
    hide Orphan, Safe, Fifo, PushedBack, Settle, Followed, AlmostFollowed, Accounted, DistinctIds, Pairable;
    var p := s.buckets[k][0];
    FrontIsProbe(env, s, k);
    ServeFifo(env, s, k, queue);
    ServeAccounts(env, s, k, queue);
    if !PushedBack(env, s.selected, p) {
      LongerLogSafe(env, s.log, s.selected, p);
      SettleSafe(env, s.log + [p], s.selected, p);
      assert (s.log + [p])[..|s.log|] == s.log;
      if env.required && Pairable(env) {
        FrontKeepsFollowed(env, s, k);
      }
      if CleanIds(env) {
        FrontIsFresh(env, s, k);
        SettleAlmostFollowed(env, s.selected, p);
      }
    }
  }

  lemma VisitKeepsInv(env: Env, s: State, uid: string)
    requires Proper(env) && Inv(env, s) && |s.selected| < env.budget
    requires Queued(s) && uid in s.queues
    ensures Inv(env, Visit(env, s, uid))
  {
    hide Serve, Safe, Followed, AlmostFollowed, Orphan, CleanIds, Pairable;
    assert UidQueue(s, uid);
    var Popped(k, queue) := PopKey(s.buckets, s.queues[uid]);
    if k.Some? {
      ServeKeepsInv(env, s, k.value, queue);
    }
  }

  lemma {:induction false} RoundKeepsInv(env: Env, s: State, uids: seq<string>)
    requires Proper(env) && Inv(env, s) && Queued(s) && forall u :: u in uids ==> u in s.queues
    ensures Inv(env, Round(env, s, uids))
    decreases |uids|
  {
    hide Inv, Visit, Queued;
    if uids == [] || |s.selected| >= env.budget {
    } else {
      VisitKeepsInv(env, s, uids[0]);
      VisitKeepsQueued(env, s, uids[0]);
      RoundKeepsInv(env, Visit(env, s, uids[0]), uids[1..]);
    }
  }

  lemma FlagKeepsInv(env: Env, s: State)
    requires Inv(env, s) && Queued(s)
    ensures Inv(env, s.(progressed := false)) && Queued(s.(progressed := false))
  {
    FlagKeepsQueued(s);
  }

  lemma {:induction false} RunKeepsInv(env: Env, s: State, uids: seq<string>)
    requires Proper(env) && Inv(env, s) && Queued(s) && forall u :: u in uids ==> u in s.queues
    ensures Inv(env, Run(env, s, uids))
    decreases env.budget - |s.selected|
  {
    hide Inv, Round, Queued, Drained;
    if |s.selected| >= env.budget || Drained(s) {
    } else {
      FlagKeepsInv(env, s);
      var t := Round(env, s.(progressed := false), uids);
      RoundKeepsInv(env, s.(progressed := false), uids);
      if t.progressed {
        RunKeepsInv(env, t, uids);
      }
    }
  }

  lemma StartInv(env: Env)
    requires Proper(env)
    ensures Inv(env, Start(env))
  {
  }

  /** The whole run from a fresh start. */
  function Outcome(env: Env): State {
    StartQueued(env);
    Run(env, Start(env), Uids(env.keys))
  }

  lemma OutcomeInv(env: Env)
    requires Proper(env)
    ensures Inv(env, Outcome(env))
  {
    hide Inv, Run, Start;
    StartQueued(env);
    StartInv(env);
    RunKeepsInv(env, Start(env), Uids(env.keys));
  }

  // ----- Main results -----

  /** What every schedule satisfies, whatever the input. */
  lemma ScheduleIsPaired(env: Env, i: nat)
    requires Proper(env) && i < |Outcome(env).selected|
    ensures |Outcome(env).selected| <= env.budget && DistinctIds(Outcome(env).selected)
    ensures var sel := Outcome(env).selected; var r := sel[i];
      if r.isBaseline then r.id in env.baselines && r == env.baselines[r.id]
      else && r in env.probes
           && (env.required && r.baselineId != "" ==> r.baselineId in env.baselines)
           && (r.baselineId in env.baselines ==> exists j :: 0 <= j < i && sel[j].id == r.baselineId)
  {
    OutcomeInv(env);
    assert Placed(env, Outcome(env).log, Outcome(env).selected, i);
    hide Outcome;
  }

  /** With clean identifiers, what precedes a probe under the identifier it names is that baseline. */
  lemma PairIsTheBaseline(env: Env, i: nat)
    requires Proper(env) && CleanIds(env) && i < |Outcome(env).selected|
    requires var r := Outcome(env).selected[i]; !r.isBaseline && r.baselineId in env.baselines
    ensures var sel := Outcome(env).selected; env.baselines[sel[i].baselineId] in sel[..i]
  {
    hide Outcome;
    var sel := Outcome(env).selected;
    ScheduleIsPaired(env, i);
    var j :| 0 <= j < i && sel[j].id == sel[i].baselineId;
    ScheduleIsPaired(env, j);
    assert sel[..i][j] == sel[j];
  }

  /** With required pairs and pairable identifiers, each scheduled baseline is directly followed by a
      probe that names it. */
  lemma BaselinesIntroduceProbes(env: Env)
    requires Proper(env) && env.required && Pairable(env)
    ensures Followed(Outcome(env).selected)
  {
    OutcomeInv(env);
    hide Outcome;
  }

  /** Whether or not pairs are required, with clean identifiers every baseline but the last entry is
      directly followed by a probe that names it, and the last entry is a baseline only in a full list. */
  lemma OnlyTheLastDangles(env: Env)
    requires Proper(env) && CleanIds(env)
    ensures AlmostFollowed(env, Outcome(env).selected)
  {
    OutcomeInv(env);
    hide Outcome;
  }

  /** Conservation: bucket by bucket the served probes and the waiting ones are the input in order, the
      list and the count of missing baselines are determined by the service order, and no probe is lost. */
  lemma ScheduleConserves(env: Env, k: Key)
    requires Proper(env)
    ensures var o := Outcome(env);
      && (k in env.keys ==> k in o.buckets && WithKey(env.probes, k) == WithKey(o.log, k) + o.buckets[k])
      && o.selected == Emit(env, o.log) && o.missing == Orphans(env, o.log) && Accounted(env, o)
  {
    OutcomeInv(env);
    hide Outcome, Accounted;
  }

  /** A visit that changes neither the list nor the missing count, with room for a pair, found nothing. */
  lemma VisitIdle(env: Env, s: State, uid: string)
    requires Proper(env) && CleanIds(env) && Inv(env, s) && Queued(s) && uid in s.queues
    requires var t := Visit(env, s, uid); !t.progressed && t.missing == s.missing && |t.selected| + 2 <= env.budget
    ensures Visit(env, s, uid).buckets == s.buckets
    ensures forall k :: k in s.buckets && k.uid == uid ==> s.buckets[k] == []
  {
    hide CleanIds, Orphan, Followed, Accounted;
    assert UidQueue(s, uid);
    var Popped(k, queue) := PopKey(s.buckets, s.queues[uid]);
    if k.Some? {
      FrontIsFresh(env, s, k.value);
      assert false;
    }
  }

  lemma {:induction false} RoundIdle(env: Env, s: State, uids: seq<string>)
    requires Proper(env) && CleanIds(env) && Inv(env, s) && Queued(s) && forall u :: u in uids ==> u in s.queues
    requires var t := Round(env, s, uids); !t.progressed && t.missing == s.missing && |t.selected| + 2 <= env.budget
    ensures Round(env, s, uids).buckets == s.buckets
    ensures forall k :: k in s.buckets && k.uid in uids ==> s.buckets[k] == []
    decreases |uids|
  {
    hide Proper, CleanIds, Inv, Queued, Visit;
    if uids == [] {
    } else {
      VisitKeepsQueued(env, s, uids[0]);
      VisitGrows(env, s, uids[0]);
      VisitKeepsInv(env, s, uids[0]);
      var v := Visit(env, s, uids[0]);
      VisitIdle(env, s, uids[0]);
      RoundIdle(env, v, uids[1..]);
      forall k | k in s.buckets && k.uid in uids ensures s.buckets[k] == [] {
        assert k.uid == uids[0] || k.uid in uids[1..];
      }
    }
  }

  lemma KeysCovered(env: Env, s: State)
    requires Inv(env, s)
    ensures forall k :: k in s.buckets ==> k.uid in Uids(env.keys)
  {
    forall k | k in s.buckets ensures k.uid in Uids(env.keys) {
      UidsMember(env.keys, k.uid);
    }
  }

  lemma {:induction false} RunStops(env: Env, s: State)
    requires Proper(env) && CleanIds(env) && Inv(env, s) && Queued(s)
    requires forall u :: u in Uids(env.keys) ==> u in s.queues
    ensures var t := Run(env, s, Uids(env.keys)); t.missing == 0 ==> Drained(t) || |t.selected| + 1 >= env.budget
    decreases env.budget - |s.selected|
  {
    hide Proper, CleanIds, Inv, Queued, Round, Uids;
    if |s.selected| < env.budget && !Drained(s) {
      var s0 := s.(progressed := false);
      FlagKeepsInv(env, s);
      var t := Round(env, s0, Uids(env.keys));
      RoundKeepsInv(env, s0, Uids(env.keys));
      if t.progressed {
        RunStops(env, t);
      } else if t.missing == 0 && |t.selected| + 2 <= env.budget {
        RoundIdle(env, s0, Uids(env.keys));
        KeysCovered(env, s0);
      }
    }
  }

  lemma {:induction false} NoOrphans(env: Env, log: seq<Row>)
    requires Orphans(env, log) == 0
    ensures forall r :: r in log ==> !Orphan(env, r)
  {
    hide Orphan;
    if log == [] {
    } else {
      NoOrphans(env, log[..|log| - 1]);
      assert log == log[..|log| - 1] + [log[|log| - 1]];
    }
  }

  lemma DrainedSchedules(env: Env, s: State, p: Row)
    requires Proper(env) && CleanIds(env) && Inv(env, s) && s.missing == 0 && Drained(s)
    requires |s.selected| < env.budget && p in env.probes
    ensures p in s.selected
  {
    hide Orphan, Followed, Emit, Seen;
    WithKeyMember(env.probes, p.key, p);
    assert s.buckets[p.key] == [];
    WithKeyMember(s.log, p.key, p);
    NoOrphans(env, s.log);
    ScheduledRow(env, s.log, s.selected, p);
  }

  lemma ScheduledRow(env: Env, log: seq<Row>, sel: seq<Row>, p: Row)
    requires CleanIds(env) && Safe(env, log, sel) && p in env.probes && p.id in Ids(sel)
    requires forall r :: r in log ==> r in env.probes
    ensures p in sel
  {
    hide Orphan, Seen;
    var r :| r in sel && r.id == p.id;
    var i :| 0 <= i < |sel| && sel[i] == r;
    assert Placed(env, log, sel, i);
    SameIdSameRow(env.probes, r, p);
  }

  /** With clean identifiers and no baseline reported missing, either every probe is scheduled or the
      budget is used up to at most one place. */
  lemma ScheduleIsComplete(env: Env, p: Row)
    requires Proper(env) && CleanIds(env) && Outcome(env).missing == 0 && p in env.probes
    ensures p in Outcome(env).selected || |Outcome(env).selected| + 1 >= env.budget
  {
    hide Inv, Proper, CleanIds, Run, Start, Drained;
    StartQueued(env);
    StartInv(env);
    OutcomeInv(env);
    RunStops(env, Start(env));
    if |Outcome(env).selected| + 1 < env.budget {
      DrainedSchedules(env, Outcome(env), p);
    }
  }

  lemma {:induction false} OrphanFree(env: Env, log: seq<Row>)
    requires forall r :: r in log ==> !Orphan(env, r)
    ensures Orphans(env, log) == 0
  {
    hide Orphan;
    if log == [] {
    } else {
      OrphanFree(env, log[..|log| - 1]);
    }
  }

  /** When every named baseline is offered, nothing is reported missing. */
  lemma NoneMissing(env: Env)
    requires Proper(env) && forall p :: p in env.probes ==> !Orphan(env, p)
    ensures Outcome(env).missing == 0
  {
    OutcomeInv(env);
    hide Outcome, Orphan, Safe, Followed;
    OrphanFree(env, Outcome(env).log);
  }

  // ----- The scheduler as the program runs it -----

  lemma Overwrite<K, V>(m: map<K, V>, k: K, v: V, w: V)
    ensures m[k := v][k := w] == m[k := w]
    ensures k in m ==> m[k := m[k]] == m && m[k := v][k := m[k]] == m
  {
  }

  lemma ServeOverwrites(env: Env, s: State, k: Key, queue: seq<Key>)
    requires k in s.buckets && s.buckets[k] != []
    ensures Serve(env, s.(queues := s.queues[k.uid := queue]), k, queue) == Serve(env, s, k, queue)
  {
    hide Settle, PushedBack, Orphan, Appends;
    var requeued := if s.buckets[k][1..] != [] then queue + [k] else queue;
    Overwrite(s.queues, k.uid, queue, requeued);
    Overwrite(s.queues, k.uid, queue, [k] + requeued);
  }

  /** The cases of a service, in the terms the loop body uses. */
  lemma ServeCases(env: Env, s: State, k: Key, p: Row, queue: seq<Key>)
    requires k in s.buckets && s.buckets[k] != [] && p == s.buckets[k][0]
    requires k.uid in s.queues && queue == (if s.buckets[k][1..] != [] then s.queues[k.uid] + [k] else s.queues[k.uid])
    ensures var t := Serve(env, s, k, s.queues[k.uid]); var rest := s.buckets[k][1..];
      if Orphan(env, p) then
        t == State(s.buckets[k := rest], s.queues[k.uid := queue], s.log + [p], s.selected, s.missing + 1, s.progressed)
      else if NewBaseline(env, s.selected, p) && |s.selected| + (if env.required then 2 else 1) > env.budget then
        t == s.(queues := s.queues[k.uid := [k] + queue])
      else
        var b := if NewBaseline(env, s.selected, p) then s.selected + [env.baselines[p.baselineId]] else s.selected;
        if p.id !in Ids(b) && |b| < env.budget then
          t == State(s.buckets[k := rest], s.queues[k.uid := queue], s.log + [p], b + [p], s.missing, true)
        else
          t == State(s.buckets[k := rest], s.queues[k.uid := queue], s.log + [p], b, s.missing, s.progressed)
  {
    hide Orphan, NewBaseline, Ids;
    var b := Prepared(env, s.selected, p);
    assert b + [] == b;
  }

  lemma BaselineId(env: Env, id: string)
    requires Proper(env) && id in env.baselines
    ensures env.baselines[id].id == id
  {
  }

  lemma AppendId(rows: seq<Row>, r: Row)
    ensures Ids(rows + [r]) == Ids(rows) + {r.id}
  {
    forall x | x in Ids(rows) + {r.id} ensures x in Ids(rows + [r]) {
      if x in Ids(rows) {
        var y :| y in rows && y.id == x;
        assert y in rows + [r];
      } else {
        assert r in rows + [r];
      }
    }
  }

  class Scheduler {
    const env: Env
    var buckets: map<Key, seq<Row>>
    var queues: map<string, seq<Key>>
    var selected: seq<Row>
    var selectedIds: set<string>
    var missing: nat
    var progressed: bool
    ghost var log: seq<Row>

    ghost function Abs(): State
      reads this
    {
      State(buckets, queues, log, selected, missing, progressed)
    }

    ghost predicate Valid()
      reads this
    {
      Proper(env) && Queued(Abs()) && selectedIds == Ids(selected)
    }

    constructor (env: Env, buckets: map<Key, seq<Row>>, queues: map<string, seq<Key>>)
      requires Proper(env) && Queued(State(buckets, queues, [], [], 0, false))
      ensures Valid() && this.env == env && Abs() == State(buckets, queues, [], [], 0, false)
    {
      this.env, this.buckets, this.queues := env, buckets, queues;
      selected, selectedIds, missing, progressed, log := [], {}, 0, false, [];
    }

    /** Takes keys off the front of a queue until one has waiting probes. */
    method Pop(uid: string) returns (key: Option<Key>)
      requires Valid() && uid in queues
      modifies this`queues
      ensures UidQueue(old(Abs()), uid)
      ensures var r := PopKey(buckets, old(queues)[uid]); key == r.key && queues == old(queues)[uid := r.rest]
    {
      assert UidQueue(Abs(), uid);
      var queue := queues[uid];
      ghost var all := queue;
      key := None;
      while queue != [] && key.None?
        invariant forall k :: k in queue ==> k in all
        invariant if key.None? then PopKey(buckets, queue) == PopKey(buckets, all)
                  else PopKey(buckets, all) == Popped(key, queue)
        decreases |queue|, if key.None? then 1 else 0
      {
        var candidate := queue[0];
        queue := queue[1..];
        if buckets[candidate] != [] {
          key := Some(candidate);
        }
      }
      queues := queues[uid := queue];
    }

    /** The body of the inner loop for one premise use. */
    method Serve1(key: Key)
      requires Proper(env) && selectedIds == Ids(selected) && key in buckets && buckets[key] != [] && key.uid in queues
      modifies this
      ensures selectedIds == Ids(selected)
      ensures Abs() == Serve(env, old(Abs()), key, old(queues)[key.uid])
    {
      hide Serve, Ids, Proper;
      ghost var before := Abs();
      var bucket, queue := buckets[key], queues[key.uid];
      var probe := bucket[0];
      bucket := bucket[1..];
      if bucket != [] {
        queue := queue + [key];
      }
      ServeCases(env, before, key, probe, queue);
      var id := probe.baselineId;
      if env.required && id != "" && id !in env.baselines {
        missing := missing + 1;
      } else {
        if id in env.baselines && id !in selectedIds {
          var needed := if env.required then 2 else 1;
          if |selected| + needed > env.budget {
            // The probe returns to the front of its bucket, which is then as before.
            queues := queues[key.uid := [key] + queue];
            return;
          }
          BaselineId(env, id);
          AppendId(selected, env.baselines[id]);
          selected := selected + [env.baselines[id]];
          selectedIds := selectedIds + {id};
        }
        AppendProbe(probe);
      }
      buckets, queues, log := buckets[key := bucket], queues[key.uid := queue], log + [probe];
    }

    method AppendProbe(probe: Row)
      requires selectedIds == Ids(selected)
      modifies `selected, `selectedIds, `progressed
      ensures selectedIds == Ids(selected)
      ensures if probe.id !in old(selectedIds) && |old(selected)| < env.budget
              then selected == old(selected) + [probe] && progressed
              else selected == old(selected) && progressed == old(progressed)
    {
      if probe.id !in selectedIds && |selected| < env.budget {
        AppendId(selected, probe);
        selected := selected + [probe];
        selectedIds := selectedIds + {probe.id};
        progressed := true;
      }
    }

    method VisitUid(uid: string)
      requires Valid() && uid in queues
      modifies this
      ensures Valid() && Abs() == Visit(env, old(Abs()), uid)
    {
      hide Serve, Settle;
      VisitKeepsQueued(env, Abs(), uid);
      ghost var before := Abs();
      assert UidQueue(before, uid);
      var key := Pop(uid);
      if key.Some? {
        ServeOverwrites(env, before, key.value, queues[uid]);
        Serve1(key.value);
      }
    }

    method RunRound(uids: seq<string>)
      requires Valid() && forall u :: u in uids ==> u in queues
      modifies this
      ensures Valid() && queues.Keys == old(queues).Keys && Abs() == Round(env, old(Abs()), uids)
    {
      hide Visit, Queued;
      ghost var before := Abs();
      var n := 0;
      assert uids[0..] == uids;
      while n < |uids| && |selected| < env.budget
        invariant 0 <= n <= |uids| && Valid() && queues.Keys == before.queues.Keys
        invariant Round(env, Abs(), uids[n..]) == Round(env, before, uids)
      {
        VisitKeepsQueued(env, Abs(), uids[n]);
        assert uids[n..][0] == uids[n] && uids[n..][1..] == uids[n + 1..];
        VisitUid(uids[n]);
        n := n + 1;
      }
    }

    /** The scheduling loop. */
    method Schedule(uids: seq<string>)
      requires Valid() && forall u :: u in uids ==> u in queues
      modifies this
      ensures Valid() && Abs() == Run(env, old(Abs()), uids)
    {
      hide Round, Queued;
      ghost var before := Abs();
      var waiting := |selected| < env.budget && !Drained(State(buckets, queues, [], selected, missing, progressed));
      while waiting
        invariant Valid() && forall u :: u in uids ==> u in queues
        invariant waiting ==>
          |selected| < env.budget && !Drained(Abs()) && Run(env, Abs(), uids) == Run(env, before, uids)
        invariant !waiting ==> Abs() == Run(env, before, uids)
        decreases waiting, env.budget - |selected|
      {
        FlagKeepsQueued(Abs());
        progressed := false;
        RunRound(uids);
        waiting := progressed && |selected| < env.budget
                   && !Drained(State(buckets, queues, [], selected, missing, progressed));
      }
    }
  }

  // ----- From candidate rows to a schedule -----

  /** The last row with an identifier wins. */
  function BaselinesOf(rows: seq<Row>): map<string, Row> {
    if rows == [] then map[]
    else
      var before, last := BaselinesOf(rows[..|rows| - 1]), rows[|rows| - 1];
      if last.isBaseline then before[last.id := last] else before
  }

  function ProbesOf(rows: seq<Row>): seq<Row> {
    if rows == [] then []
    else ProbesOf(rows[..|rows| - 1]) + if rows[|rows| - 1].isBaseline then [] else [rows[|rows| - 1]]
  }

  lemma {:induction false} BaselinesAreOffered(rows: seq<Row>, id: string)
    ensures id in BaselinesOf(rows) ==>
      var b := BaselinesOf(rows)[id]; b in rows && b.id == id && b.isBaseline
    ensures (exists b :: b in rows && b.isBaseline && b.id == id) ==> id in BaselinesOf(rows)
  {
    if rows == [] {
    } else {
      BaselinesAreOffered(rows[..|rows| - 1], id);
      assert rows == rows[..|rows| - 1] + [rows[|rows| - 1]];
    }
  }

  lemma {:induction false} ProbesAreOffered(rows: seq<Row>, r: Row)
    ensures r in ProbesOf(rows) <==> r in rows && !r.isBaseline
  {
    if rows == [] {
    } else {
      ProbesAreOffered(rows[..|rows| - 1], r);
      assert rows == rows[..|rows| - 1] + [rows[|rows| - 1]];
    }
  }

  /** keys lists every bucket key. */
  ghost predicate Covers(keys: seq<Key>, rows: seq<Row>) {
    forall r :: r in rows && !r.isBaseline ==> r.key in keys
  }

  function EnvOf(rows: seq<Row>, keys: seq<Key>, budget: int, required: bool): Env {
    Env(BaselinesOf(rows), ProbesOf(rows), keys, if budget < 0 then 0 else budget, required)
  }

  lemma EnvIsProper(rows: seq<Row>, keys: seq<Key>, budget: int, required: bool)
    requires Covers(keys, rows)
    ensures Proper(EnvOf(rows, keys, budget, required))
  {
    forall b | b in BaselinesOf(rows) ensures BaselinesOf(rows)[b].id == b && BaselinesOf(rows)[b].isBaseline {
      BaselinesAreOffered(rows, b);
    }
    forall r | r in ProbesOf(rows) ensures !r.isBaseline && r.key in keys {
      ProbesAreOffered(rows, r);
    }
  }

  /** Fills the buckets in input order. */
  method FillBuckets(probes: seq<Row>, keys: seq<Key>) returns (buckets: map<Key, seq<Row>>)
    requires forall r :: r in probes ==> r.key in keys
    ensures buckets == map k | k in keys :: WithKey(probes, k)
  {
    buckets := map k | k in keys :: [];
    for n := 0 to |probes|
      invariant buckets == map k | k in keys :: WithKey(probes[..n], k)
    {
      var p := probes[n];
      ghost var before := buckets;
      assert probes[..n + 1][..n] == probes[..n];
      buckets := buckets[p.key := buckets[p.key] + [p]];
      forall k | k in keys ensures buckets[k] == WithKey(probes[..n + 1], k) {
        assert before[k] == WithKey(probes[..n], k);
      }
    }
    assert probes[..|probes|] == probes;
  }

  lemma WithUidStep(keys: seq<Key>, key: Key, uid: string)
    ensures WithUid(keys + [key], uid) == if key.uid == uid then WithUid(keys, uid) + [key] else WithUid(keys, uid)
  {
    assert (keys + [key])[..|keys|] == keys;
    assert WithUid(keys, uid) + [] == WithUid(keys, uid);
  }

  lemma UidsStep(keys: seq<Key>, key: Key)
    ensures Uids(keys + [key]) == if key.uid in Uids(keys) then Uids(keys) else Uids(keys) + [key.uid]
  {
    assert (keys + [key])[..|keys|] == keys;
  }

  lemma QueueAt(keys: seq<Key>, key: Key, uid: string)
    ensures var now, before := QueuesOf(keys + [key]), QueuesOf(keys);
      && (uid in now <==> uid in before || uid == key.uid)
      && (uid in now && uid != key.uid ==> now[uid] == before[uid])
      && (uid == key.uid ==> now[uid] == if uid in before then before[uid] + [key] else [key])
  {
    hide Uids, WithUid;
    UidsStep(keys, key);
    WithUidStep(keys, key, uid);
    if uid !in Uids(keys) {
      AbsentUid(keys, uid);
    }
  }

  lemma QueuesStep(keys: seq<Key>, key: Key, queues: map<string, seq<Key>>)
    requires queues == QueuesOf(keys)
    ensures key.uid in queues ==> QueuesOf(keys + [key]) == queues[key.uid := queues[key.uid] + [key]]
    ensures key.uid !in queues ==> QueuesOf(keys + [key]) == queues[key.uid := [key]]
  {
    hide QueuesOf;
    var now := QueuesOf(keys + [key]);
    var value := if key.uid in queues then queues[key.uid] + [key] else [key];
    var next := queues[key.uid := value];
    forall uid ensures uid in now <==> uid in next
      ensures uid in now ==> now[uid] == next[uid]
    {
      QueueAt(keys, key, uid);
    }
    assert now == next;
  }

  lemma QueuesKeys(keys: seq<Key>, uid: string)
    ensures uid in QueuesOf(keys) <==> uid in Uids(keys)
  {
    hide Uids, WithUid;
  }

  lemma NoQueues()
    ensures QueuesOf([]) == map[] && Uids([]) == []
  {
  }

  /** Queues each bucket key under its premise use. */
  method FillQueues(keys: seq<Key>) returns (queues: map<string, seq<Key>>, uids: seq<string>)
    ensures uids == Uids(keys) && queues == QueuesOf(keys)
  {
    hide QueuesOf, Uids, WithUid;
    queues, uids := map[], [];
    ghost var seen: seq<Key> := [];
    NoQueues();
    for n := 0 to |keys|
      invariant seen == keys[..n] && uids == Uids(seen) && queues == QueuesOf(seen)
    {
      var key := keys[n];
      QueuesStep(seen, key, queues);
      UidsStep(seen, key);
      QueuesKeys(seen, key.uid);
      if key.uid in queues {
        queues := queues[key.uid := queues[key.uid] + [key]];
      } else {
        queues := queues[key.uid := [key]];
        uids := uids + [key.uid];
      }
      seen := seen + [key];
    }
    assert seen == keys;
  }

  lemma {:induction false} AbsentUid(keys: seq<Key>, uid: string)
    requires uid !in Uids(keys)
    ensures WithUid(keys, uid) == []
  {
    if keys == [] {
    } else {
      AbsentUid(keys[..|keys| - 1], uid);
    }
  }

  method SplitRows(rows: seq<Row>) returns (baselines: map<string, Row>, probes: seq<Row>)
    ensures baselines == BaselinesOf(rows) && probes == ProbesOf(rows)
  {
    baselines, probes := map[], [];
    for n := 0 to |rows|
      invariant baselines == BaselinesOf(rows[..n]) && probes == ProbesOf(rows[..n])
    {
      assert rows[..n + 1][..n] == rows[..n];
      if rows[n].isBaseline {
        baselines := baselines[rows[n].id := rows[n]];
      } else {
        probes := probes + [rows[n]];
      }
    }
    assert rows[..|rows|] == rows;
  }

  /** The paired schedule of candidate rows, for any order of the bucket keys. */
  method ScheduleCandidates(rows: seq<Row>, keys: seq<Key>, budget: int, required: bool)
    returns (selected: seq<Row>, missing: nat)
    requires Covers(keys, rows)
    ensures var o := Outcome(EnvOf(rows, keys, budget, required)); selected == o.selected && missing == o.missing
  {
    hide BaselinesOf, ProbesOf, Queued, Run, WithKey, Proper, Uids, WithUid;
    EnvIsProper(rows, keys, budget, required);
    ProperProbes(EnvOf(rows, keys, budget, required));
    var baselines, probes := SplitRows(rows);
    var env := Env(baselines, probes, keys, if budget < 0 then 0 else budget, required);
    var buckets := FillBuckets(probes, keys);
    var queues, uids := FillQueues(keys);
    StartQueued(env);
    assert State(buckets, queues, [], [], 0, false) == Start(env);
    var scheduler := new Scheduler(env, buckets, queues);
    scheduler.Schedule(uids);
    selected, missing := scheduler.selected, scheduler.missing;
  }

  lemma ProperProbes(env: Env)
    requires Proper(env)
    ensures forall r :: r in env.probes ==> r.key in env.keys
  {
  }
}
