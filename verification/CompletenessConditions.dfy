/** When the paired schedules of Bivariate schedule every probe that can be: exact conditions on the rows a
    caller holds, over every way those rows can be bucketed and every choice the conditions leave open.
    The failing inputs queue exactly the keys of their buckets, in sorted order. */
module CompletenessConditions {
  import opened Bivariate
  import opened Options
  import opened PairingConditions

  // ----- Probes with missing baselines -----

  /** The same rows under the same settings, sorted into buckets some other way. */
  ghost predicate SameButKeys(env: Env, other: Env) {
    && env.baselines == other.baselines && env.budget == other.budget && env.required == other.required
    && |env.probes| == |other.probes|
    && forall i :: 0 <= i < |env.probes| ==> SameRow(env.probes[i], other.probes[i])
  }

  predicate SameRow(p: Row, q: Row) { p == q.(key := p.key) }

  /** Every probe that names no missing baseline is scheduled, or at most one place is left. */
  ghost predicate EligibleScheduled(env: Env) {
    forall p :: p in env.probes && !Orphan(env, p) ==>
      p in Outcome(env).selected || |Outcome(env).selected| + 1 >= env.budget
  }

  ghost predicate AlwaysComplete(env: Env) {
    forall other | SameButKeys(other, env) && Proper(other) :: EligibleScheduled(other)
  }

  /** The bucketing that puts the probes with missing baselines at the front of the only queue. */
  function OrphansFirst(env: Env, front: Key, back: Key): (other: Env)
    ensures |other.probes| == |env.probes|
  {
    env.(keys := [front, back],
         probes := seq(|env.probes|, i requires 0 <= i < |env.probes| =>
                         env.probes[i].(key := if Orphan(env, env.probes[i]) then front else back)))
  }

  lemma OrphansFirstShape(env: Env, front: Key, back: Key)
    requires Proper(env)
    ensures var other := OrphansFirst(env, front, back); SameButKeys(other, env) && Proper(other)
    ensures var other := OrphansFirst(env, front, back);
      forall p :: p in other.probes ==> (Orphan(other, p) <==> p.key == front) || front == back
  {
    var other := OrphansFirst(env, front, back);
    forall p | p in other.probes ensures !p.isBaseline && p.key in [front, back] {
      var i :| 0 <= i < |other.probes| && other.probes[i] == p;
      assert env.probes[i] in env.probes;
    }
  }

  lemma OrphanSettles(env: Env, sel: seq<Row>, p: Row)
    requires Orphan(env, p)
    ensures Settle(env, sel, p) == sel && !Appends(env, sel, p) && !PushedBack(env, sel, p)
  {
  }

  /** With clean identifiers, however the rows fall into buckets every probe that can be scheduled is, or at
      most one place is left, exactly when the budget is below two or probes with missing baselines and
      probes without do not both occur. */
  lemma AlwaysCompleteIff(env: Env)
    requires Proper(env) && CleanIds(env)
    ensures AlwaysComplete(env) <==>
      || env.budget < 2
      || (forall p :: p in env.probes ==> !Orphan(env, p))
      || (forall p :: p in env.probes ==> Orphan(env, p))
  {
    hide Outcome, Orphan, Proper, CleanIds;
    if env.budget < 2 {
      forall other | SameButKeys(other, env) && Proper(other) ensures EligibleScheduled(other) {
      }
    } else if forall p :: p in env.probes ==> !Orphan(env, p) {
      forall other | SameButKeys(other, env) && Proper(other) ensures EligibleScheduled(other) {
        NoOrphanComplete(env, other);
      }
    } else if forall p :: p in env.probes ==> Orphan(env, p) {
      forall other | SameButKeys(other, env) ensures forall p :: p in other.probes ==> Orphan(other, p) {
        SameOrphans(other, env);
      }
    } else {
      var p :| p in env.probes && Orphan(env, p);
      var q :| q in env.probes && !Orphan(env, q);
      MixBlocks(env, p, q);
    }
  }

  lemma SameOrphans(other: Env, env: Env)
    requires SameButKeys(other, env)
    ensures (forall p :: p in env.probes ==> Orphan(env, p)) ==> forall p :: p in other.probes ==> Orphan(other, p)
    ensures (forall p :: p in env.probes ==> !Orphan(env, p)) ==> forall p :: p in other.probes ==> !Orphan(other, p)
    ensures CleanIds(env) ==> CleanIds(other)
  {
    forall p | p in other.probes ensures exists q :: q in env.probes && SameRow(p, q) {
      var i :| 0 <= i < |other.probes| && other.probes[i] == p;
      assert SameRow(p, env.probes[i]) && env.probes[i] in env.probes;
    }
    if DistinctIds(env.probes) {
      forall i, j | 0 <= i < j < |other.probes| ensures other.probes[i].id != other.probes[j].id {
        assert SameRow(other.probes[i], env.probes[i]) && SameRow(other.probes[j], env.probes[j]);
      }
    }
  }

  lemma NoOrphanComplete(env: Env, other: Env)
    requires CleanIds(env) && SameButKeys(other, env) && Proper(other)
    requires forall p :: p in env.probes ==> !Orphan(env, p)
    ensures EligibleScheduled(other)
  {
    hide Orphan, Outcome, CleanIds, Proper;
    SameOrphans(other, env);
    NoneMissing(other);
    forall p | p in other.probes
      ensures p in Outcome(other).selected || |Outcome(other).selected| + 1 >= other.budget
    {
      ScheduleIsComplete(other, p);
    }
  }

  lemma MixBlocks(env: Env, p: Row, q: Row)
    requires Proper(env) && env.budget >= 2
    requires p in env.probes && Orphan(env, p) && q in env.probes && !Orphan(env, q)
    ensures !AlwaysComplete(env)
  {
    hide Outcome, Proper, WithKey;
    var other := OrphansFirst(env, FRONT, BACK);
    OrphansFirstShape(env, FRONT, BACK);
    var i :| 0 <= i < |env.probes| && env.probes[i] == p;
    var j :| 0 <= j < |env.probes| && env.probes[j] == q;
    var x, y := other.probes[i], other.probes[j];
    assert x in other.probes && y in other.probes && !Orphan(other, y);
    WithKeyMember(other.probes, FRONT, x);
    var z := WithKey(other.probes, FRONT)[0];
    WithKeyMember(other.probes, FRONT, z);
    OrphanSettles(other, [], z);
    FrontEndsRun(other, FRONT, BACK, z);
    assert !EligibleScheduled(other);
  }

  // ----- Repeated and clashing identifiers -----

  /** Every named baseline is offered. */
  ghost predicate NothingMissing(env: Env) { forall p :: p in env.probes ==> !Orphan(env, p) }

  /** Every probe's identifier is scheduled, or at most one place is left. */
  ghost predicate IdsScheduled(env: Env) {
    forall p :: p in env.probes ==> p.id in Ids(Outcome(env).selected) || |Outcome(env).selected| + 1 >= env.budget
  }

  /** Every input whose probes carry these identifiers and name only offered baselines, and whose baselines
      carry those of B, has all its identifiers scheduled, whatever the budget and the buckets. */
  ghost predicate AlwaysScheduled(ids: seq<string>, B: set<string>, required: bool) {
    forall env | Proper(env) && env.required == required && IdList(env.probes) == ids && env.baselines.Keys == B
                 && NothingMissing(env) ::
      IdsScheduled(env)
  }

  ghost predicate AllEqual(ids: seq<string>) { forall i, j :: 0 <= i < j < |ids| ==> ids[i] == ids[j] }

  lemma CleanScheduled(env: Env)
    requires Proper(env) && NothingMissing(env)
    requires Distinct(IdList(env.probes)) && Disjoint(IdList(env.probes), env.baselines.Keys)
    ensures IdsScheduled(env)
  {
    hide Outcome, Orphan, Proper;
    CleanFromIds(env);
    hide CleanIds;
    NoneMissing(env);
    forall p | p in env.probes
      ensures p.id in Ids(Outcome(env).selected) || |Outcome(env).selected| + 1 >= env.budget
    {
      ScheduleIsComplete(env, p);
    }
  }

  /** Nothing has been served yet, and nothing is missing. */
  ghost predicate Untouched(env: Env, s: State) {
    && Proper(env) && NothingMissing(env) && env.budget >= 2 && Fifo(env, s) && s.log == [] && s.selected == []
  }

  /** A visit that serves nothing found nothing. */
  lemma VisitServes(env: Env, s: State, uid: string)
    requires Untouched(env, s) && Queued(s) && uid in s.queues && Visit(env, s, uid).log == []
    ensures Visit(env, s, uid).buckets == s.buckets && Visit(env, s, uid).selected == []
    ensures forall k :: k in s.buckets && k.uid == uid ==> s.buckets[k] == []
  {
    hide Orphan, Fifo, Settle, Appends;
    assert UidQueue(s, uid);
    var Popped(k, queue) := PopKey(s.buckets, s.queues[uid]);
    if k.Some? {
      assert false;
    }
  }

  lemma SameBucketsUntouched(env: Env, s: State, t: State)
    requires Untouched(env, s) && t.buckets == s.buckets && t.log == [] && t.selected == []
    ensures Untouched(env, t)
  {
  }

  lemma {:induction false} RoundServes(env: Env, s: State, uids: seq<string>)
    requires Untouched(env, s) && Queued(s) && forall u :: u in uids ==> u in s.queues
    requires Round(env, s, uids).log == []
    ensures forall k :: k in s.buckets && k.uid in uids ==> s.buckets[k] == []
    decreases |uids|
  {
    if uids == [] {
    } else {
      assert |s.selected| < env.budget;
      hide Untouched, Queued, Visit;
      VisitKeepsQueued(env, s, uids[0]);
      VisitGrows(env, s, uids[0]);
      var v := Visit(env, s, uids[0]);
      assert Round(env, s, uids) == Round(env, v, uids[1..]);
      VisitServes(env, s, uids[0]);
      SameBucketsUntouched(env, s, v);
      RoundServes(env, v, uids[1..]);
      forall k | k in s.buckets && k.uid in uids ensures s.buckets[k] == [] {
        assert k.uid == uids[0] || k.uid in uids[1..];
      }
    }
  }

  lemma StartUntouched(env: Env)
    requires Proper(env) && NothingMissing(env) && env.budget >= 2
    ensures Untouched(env, Start(env)) && Start(env).(progressed := false) == Start(env)
  {
    StartInv(env);
  }

  lemma NotDrained(env: Env, s: State)
    requires Untouched(env, s) && env.probes != []
    ensures !Drained(s)
  {
    var p := env.probes[0];
    WithKeyMember(env.probes, p.key, p);
    assert s.buckets[p.key] == WithKey(env.probes, p.key);
  }

  /** With room for a pair some probe is served. */
  lemma SomeServed(env: Env)
    requires Proper(env) && NothingMissing(env) && env.budget >= 2 && env.probes != []
    ensures Outcome(env).log != []
  {
    hide Proper, NothingMissing, Round, Start, Drained, Queued, Uids, Inv;
    var s, uids := Start(env), Uids(env.keys);
    StartQueued(env);
    StartUntouched(env);
    NotDrained(env, s);
    assert |s.selected| < env.budget;
    var t := Round(env, s, uids);
    assert |t.log| <= |Outcome(env).log|;
    if t.log == [] {
      RoundServes(env, s, uids);
      StartInv(env);
      KeysCovered(env, s);
      AllEmpty(s, uids);
    }
  }

  lemma AllEmpty(s: State, uids: seq<string>)
    requires forall k :: k in s.buckets && k.uid in uids ==> s.buckets[k] == []
    requires forall k :: k in s.buckets ==> k.uid in uids
    ensures Drained(s)
  {
  }

  lemma ServedAccounted(env: Env)
    requires Proper(env)
    ensures Accounted(env, Outcome(env)) && forall r :: r in Outcome(env).log ==> r in env.probes
  {
    hide Outcome, Orphan, Safe, Emit, Orphans, Followed, AlmostFollowed, Accounted;
    OutcomeInv(env);
  }

  lemma EqualScheduled(env: Env)
    requires Proper(env) && NothingMissing(env) && AllEqual(IdList(env.probes))
    ensures IdsScheduled(env)
  {
    hide Outcome, Orphan, Ids, Proper;
    ServedAccounted(env);
    if env.budget >= 2 && env.probes != [] {
      SomeServed(env);
      var ids, o := IdList(env.probes), Outcome(env);
      var r := o.log[0];
      assert r in o.log && r in env.probes;
      assert r.id in Ids(o.selected) || |o.selected| >= env.budget;
      var i :| 0 <= i < |env.probes| && env.probes[i] == r;
      forall p | p in env.probes ensures p.id == r.id {
        var j :| 0 <= j < |env.probes| && env.probes[j] == p;
        assert ids[i] == r.id && ids[j] == p.id;
      }
    }
  }

  // ----- A repeated identifier served twice in a row -----

  const MIDDLE := Key("u", "am", "", "global")

  /** The probes at positions i and j are served first, one after the other; no probe names a baseline with
      a nonempty identifier. */
  function TwiceEnv(ids: seq<string>, i: nat, j: nat, B: set<string>, required: bool): (env: Env)
    ensures IdList(env.probes) == ids && env.baselines.Keys == B && env.budget == 4 && env.required == required
    ensures env.keys == [FRONT, MIDDLE, BACK]
    ensures forall x :: 0 <= x < |ids| ==>
      env.probes[x] == Row(ids[x], false, "", if x == i then FRONT else if x == j then MIDDLE else BACK)
  {
    Env(Baselines(B, FRONT),
        seq(|ids|, x requires 0 <= x < |ids| =>
          Row(ids[x], false, "", if x == i then FRONT else if x == j then MIDDLE else BACK)),
        [FRONT, MIDDLE, BACK], 4, required)
  }

  lemma TwiceIsProper(ids: seq<string>, i: nat, j: nat, B: set<string>, required: bool)
    ensures Proper(TwiceEnv(ids, i, j, B, required)) && NothingMissing(TwiceEnv(ids, i, j, B, required))
  {
    var env := TwiceEnv(ids, i, j, B, required);
    forall r | r in env.probes ensures !r.isBaseline && r.key in env.keys && r.baselineId == "" {
      var x :| 0 <= x < |env.probes| && env.probes[x] == r;
    }
  }

  lemma {:induction false} NoneWithKey(rows: seq<Row>, k: Key)
    requires forall x :: 0 <= x < |rows| ==> rows[x].key != k
    ensures WithKey(rows, k) == []
  {
    if rows == [] {
    } else {
      NoneWithKey(rows[..|rows| - 1], k);
    }
  }

  lemma {:induction false} OneWithKey(rows: seq<Row>, k: Key, i: nat)
    requires i < |rows| && rows[i].key == k && forall x :: 0 <= x < |rows| && x != i ==> rows[x].key != k
    ensures WithKey(rows, k) == [rows[i]]
  {
    if i == |rows| - 1 {
      NoneWithKey(rows[..i], k);
    } else {
      OneWithKey(rows[..|rows| - 1], k, i);
    }
  }

  lemma ThreeKeys(a: Key, b: Key, c: Key)
    requires a.uid == b.uid == c.uid
    ensures Uids([a, b, c]) == [a.uid] && WithUid([a, b, c], a.uid) == [a] + [b, c]
  {
    TwoKeys(a, b);
    assert [a, b, c][..2] == [a, b];
  }

  /** What serving the only probe of the first bucket leaves. */
  lemma VisitOnly(env: Env, s: State, k: Key, p: Row, queue: seq<Key>)
    requires Queued(s) && k.uid in s.queues && s.queues[k.uid] == [k] + queue && k in s.buckets && s.buckets[k] == [p]
    requires !PushedBack(env, s.selected, p)
    ensures var t := Visit(env, s, k.uid);
      && t.selected == Settle(env, s.selected, p) && t.queues == s.queues[k.uid := queue]
      && t.buckets == s.buckets[k := []] && t.progressed == (s.progressed || Appends(env, s.selected, p))
  {
    hide Orphan, Settle, Appends, PushedBack;
    assert ([k] + queue)[0] == k && ([k] + queue)[1..] == queue && [p][1..] == [];
    assert Visit(env, s, k.uid) == Serve(env, s, k, queue);
  }

  /** With one premise use a round is one visit. */
  lemma OneVisit(env: Env, s: State, uid: string)
    requires Queued(s) && uid in s.queues && |s.selected| < env.budget
    ensures Queued(Visit(env, s, uid)) && Round(env, s, [uid]) == Visit(env, s, uid)
  {
    hide Visit, Queued;
    VisitKeepsQueued(env, s, uid);
    assert [uid][1..] == [];
  }

  lemma RunOn(env: Env, s: State, uid: string)
    requires Queued(s) && uid in s.queues && |s.selected| < env.budget && !Drained(s)
    ensures Queued(s.(progressed := false))
    ensures var t := Visit(env, s.(progressed := false), uid);
      && Queued(t) && uid in t.queues && Run(env, s, [uid]) == if t.progressed then Run(env, t, [uid]) else t
  {
    FlagKeepsQueued(s);
    OneVisit(env, s.(progressed := false), uid);
    VisitKeepsQueued(env, s.(progressed := false), uid);
    hide Visit, Queued, Round;
  }

  /** The first probe is appended, the second is not, and the run is over. */
  lemma TwoServed(env: Env, a: Key, b: Key, c: Key, p: Row, q: Row)
    requires env.keys == [a, b, c] && a.uid == b.uid == c.uid && a != b && b != c && a != c && env.budget > 0
    requires WithKey(env.probes, a) == [p] && WithKey(env.probes, b) == [q]
    requires !PushedBack(env, [], p) && Appends(env, [], p)
    requires var sel := Settle(env, [], p); |sel| < env.budget && !PushedBack(env, sel, q) && !Appends(env, sel, q)
    ensures Outcome(env).selected == Settle(env, Settle(env, [], p), q)
  {
    hide Settle, Appends, PushedBack, WithKey, WithUid, Uids, Visit, Queued, Run;
    var s := Start(env);
    StartQueued(env);
    ThreeKeys(a, b, c);
    assert a in env.keys && a.uid in s.queues && s.buckets[a] == [p] && s.buckets[b] == [q];
    RunOn(env, s, a.uid);
    assert s.(progressed := false) == s;
    VisitOnly(env, s, a, p, [b, c]);
    var t := Visit(env, s, a.uid);
    assert t.buckets[b] == [q] && !Drained(t);
    RunOn(env, t, a.uid);
    var u := t.(progressed := false);
    assert [b, c] == [b] + [c];
    VisitOnly(env, u, b, q, [c]);
  }

  /** The second probe with the same identifier ends the run, and the rest is never served. */
  lemma TwiceOutcome(ids: seq<string>, i: nat, j: nat, B: set<string>, required: bool)
    requires i < j < |ids| && ids[i] == ids[j] && Disjoint(ids, B)
    ensures var sel := Outcome(TwiceEnv(ids, i, j, B, required)).selected;
      |sel| <= 2 && forall r :: r in sel ==> r.id == ids[i] || r.id in B
  {
    hide Outcome, WithKey, Settle, Appends, PushedBack;
    var env := TwiceEnv(ids, i, j, B, required);
    var p, q := env.probes[i], env.probes[j];
    OneWithKey(env.probes, FRONT, i);
    OneWithKey(env.probes, MIDDLE, j);
    if "" in B {
      SettlePair(env, [], p);
    } else {
      SettlePlain(env, [], p);
    }
    var sel := Settle(env, [], p);
    assert p in sel;
    assert "" in B ==> env.baselines[""] in sel;
    TakenIsSkipped(env, sel, q);
    TwoServed(env, FRONT, MIDDLE, BACK, p, q);
  }

  lemma TakenIsSkipped(env: Env, sel: seq<Row>, p: Row)
    requires !Orphan(env, p) && !NewBaseline(env, sel, p) && p.id in Ids(sel)
    ensures Settle(env, sel, p) == sel && !Appends(env, sel, p) && !PushedBack(env, sel, p)
  {
  }

  // ----- The condition -----

  lemma ClashLeavesIds(ids: seq<string>, i: nat, x: nat, B: set<string>, required: bool)
    requires i < |ids| && x < |ids| && ids[i] in B && ids[x] != ids[i]
    ensures !AlwaysScheduled(ids, B, required)
  {
    hide Outcome, Proper;
    var env := ClashEnv(ids, i, B, 3, required);
    ClashIsProper(ids, i, B, 3, required);
    ClashOutcome(ids, i, B, 3, required);
    assert env.probes[x] in env.probes;
    forall p | p in env.probes ensures !Orphan(env, p) {
      var y :| 0 <= y < |env.probes| && env.probes[y] == p;
    }
    assert ids[x] !in Ids(Outcome(env).selected);
    assert !IdsScheduled(env);
  }

  lemma TwiceLeavesIds(ids: seq<string>, i: nat, j: nat, x: nat, B: set<string>, required: bool)
    requires i < j < |ids| && ids[i] == ids[j] && x < |ids| && ids[x] != ids[i] && Disjoint(ids, B)
    ensures !AlwaysScheduled(ids, B, required)
  {
    hide Outcome, Proper, NothingMissing;
    var env := TwiceEnv(ids, i, j, B, required);
    TwiceIsProper(ids, i, j, B, required);
    TwiceOutcome(ids, i, j, B, required);
    assert env.probes[x] in env.probes;
    assert ids[x] !in Ids(Outcome(env).selected);
    assert !IdsScheduled(env);
  }

  /** When only offered baselines are named, every identifier is always scheduled or at most one place is
      left, exactly when no identifier occurs twice, as a probe's or a baseline's, or there is only one. */
  lemma AlwaysScheduledIff(ids: seq<string>, B: set<string>, required: bool)
    ensures AlwaysScheduled(ids, B, required) <==> (Distinct(ids) && Disjoint(ids, B)) || AllEqual(ids)
  {
    hide IdsScheduled, Proper, NothingMissing;
    if (Distinct(ids) && Disjoint(ids, B)) || AllEqual(ids) {
      forall env | Proper(env) && env.required == required && IdList(env.probes) == ids && env.baselines.Keys == B
                   && NothingMissing(env)
        ensures IdsScheduled(env)
      {
        if AllEqual(ids) {
          EqualScheduled(env);
        } else {
          CleanScheduled(env);
        }
      }
    } else {
      var a, b :| 0 <= a < b < |ids| && ids[a] != ids[b];
      if i :| 0 <= i < |ids| && ids[i] in B {
        ClashLeavesIds(ids, i, if ids[a] != ids[i] then a else b, B, required);
      } else {
        var i, j :| 0 <= i < j < |ids| && ids[i] == ids[j];
        TwiceLeavesIds(ids, i, j, if ids[a] != ids[i] then a else b, B, required);
      }
    }
  }
}
