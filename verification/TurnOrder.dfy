/** The order in which the paired scheduler of lean_rgc/bivariate_contextual_quotient.py serves its buckets:
    the buckets of a premise use take turns, and so do the uses, those whose next probe is pushed back aside. */
module TurnOrder {
  import opened Bivariate
  import opened Options

  ghost function Served(log: seq<Row>, k: Key): nat { |WithKey(log, k)| }

  /** Services of all the buckets of a premise use. */
  ghost function UseServed(log: seq<Row>, uid: string): nat {
    if log == [] then 0 else UseServed(log[..|log| - 1], uid) + if log[|log| - 1].key.uid == uid then 1 else 0
  }

  /** Some probe of the bucket is not in the log yet. */
  ghost predicate Waits(env: Env, log: seq<Row>, k: Key) {
    k in env.keys && Served(log, k) < |WithKey(env.probes, k)|
  }

  ghost predicate UseWaits(env: Env, log: seq<Row>, uid: string) {
    exists k: Key :: k.uid == uid && Waits(env, log, k)
  }

  ghost predicate Before<T>(order: seq<T>, a: T, b: T) {
    exists i, j :: 0 <= i < j < |order| && order[i] == a && order[j] == b
  }

  /** Of two that wait, a is next: both were served as often and a stands first, or b once more and stands first. */
  ghost predicate AheadOf<T>(order: seq<T>, a: T, b: T, servedA: nat, servedB: nat) {
    (servedA == servedB && Before(order, a, b)) || (servedB == servedA + 1 && Before(order, b, a))
  }

  /** p names an offered baseline that is not in the list, and there is no place for it, or for the two of them
      when pairs are required. */
  ghost predicate DoesNotFit(env: Env, list: seq<Row>, p: Row) {
    && p.baselineId in env.baselines && (forall r :: r in list ==> r.id != p.baselineId)
    && |list| + (if env.required then 2 else 1) > env.budget
  }

  /** The next probe of a waiting bucket of the use does not fit. */
  ghost predicate HeldUp(env: Env, past: seq<Row>, uid: string) {
    exists k: Key :: k.uid == uid && HeldUpAt(env, past, k)
  }

  ghost predicate HeldUpAt(env: Env, past: seq<Row>, k: Key) {
    Waits(env, past, k) && DoesNotFit(env, Emit(env, past), WithKey(env.probes, k)[Served(past, k)])
  }

  /** Every probe was served in turn: its bucket was next among the waiting buckets of its premise use, and its use
      next among the uses that wait and are not held up, in the order of their first keys. */
  ghost predicate Orderly(env: Env, log: seq<Row>) { forall b: nat :: b < |log| ==> InTurn(env, log, b) }

  ghost predicate InTurn(env: Env, log: seq<Row>, b: nat)
    requires b < |log|
  {
    && KeyIsNext(env, log[..b], log[b].key)
    && UseIsNext(env, log[..b], log[b].key.uid)
    && Extends(env, Emit(env, log[..b]), log[b], Emit(env, log[..b + 1]))
  }

  /** Serving p makes now out of list. The list is not full; a probe naming a baseline that was not offered leaves
      it as it is when pairs are required; otherwise the baseline p names is put in if it is offered and no entry
      has its identifier, for which it has to fit, together with p when pairs are required; and then p, if no entry
      has its identifier and a place is left. */
  ghost predicate Extends(env: Env, list: seq<Row>, p: Row, now: seq<Row>) {
    && |list| < env.budget
    && if env.required && p.baselineId != "" && p.baselineId !in env.baselines then now == list
       else
         var pulls := p.baselineId in env.baselines && forall r :: r in list ==> r.id != p.baselineId;
         var paired := if pulls then list + [env.baselines[p.baselineId]] else list;
         && (pulls ==> |list| + (if env.required then 2 else 1) <= env.budget)
         && now == if (forall r :: r in paired ==> r.id != p.id) && |paired| < env.budget then paired + [p] else paired
  }

  lemma SettleMeaning(env: Env, list: seq<Row>, p: Row)
    requires |list| < env.budget && !PushedBack(env, list, p)
    ensures Extends(env, list, p, Settle(env, list, p))
  {
    var b := Prepared(env, list, p);
    assert b + [] == b;
    assert p.baselineId in Ids(list) <==> exists r :: r in list && r.id == p.baselineId;
    assert p.id in Ids(b) <==> exists r :: r in b && r.id == p.id;
  }

  ghost predicate KeyIsNext(env: Env, past: seq<Row>, k: Key) {
    forall l: Key :: l != k && l.uid == k.uid && Waits(env, past, l) ==>
      AheadOf(env.keys, k, l, Served(past, k), Served(past, l))
  }

  ghost predicate UseIsNext(env: Env, past: seq<Row>, uid: string) {
    forall u :: u != uid && UseWaits(env, past, u) && !HeldUp(env, past, u) ==>
      AheadOf(Uids(env.keys), uid, u, UseServed(past, uid), UseServed(past, u))
  }

  // ----- Distinct orders -----

  lemma BeforeIsOrder<T>(order: seq<T>, a: T, b: T)
    requires Distinct(order) && Before(order, a, b)
    ensures a != b && !Before(order, b, a)
  {
  }

  lemma {:induction false} UidsDistinct(keys: seq<Key>)
    ensures Distinct(Uids(keys))
  {
    if keys == [] {
    } else {
      UidsDistinct(keys[..|keys| - 1]);
    }
  }

  // ----- Queues in turn -----

  ghost predicate QueueInTurn(env: Env, log: seq<Row>, q: seq<Key>) {
    forall x, y :: 0 <= x < y < |q| ==> AheadOf(env.keys, q[x], q[y], Served(log, q[x]), Served(log, q[y]))
  }

  /** The list is full, or the probe at the head of the queue is pushed back at every visit. */
  ghost predicate Stuck(env: Env, s: State, u: string)
    requires u in s.queues
  {
    || |s.selected| >= env.budget
    || (&& s.queues[u] != [] && s.queues[u][0] in s.buckets && s.buckets[s.queues[u][0]] != []
        && PushedBack(env, s.selected, s.buckets[s.queues[u][0]][0]))
  }

  ghost predicate QueuesInTurn(env: Env, s: State) {
    forall u :: u in s.queues ==> QueueInTurn(env, s.log, s.queues[u]) || Stuck(env, s, u)
  }

  lemma ServedStep(log: seq<Row>, p: Row, k: Key)
    ensures Served(log + [p], k) == Served(log, k) + if p.key == k then 1 else 0
  {
    WithKeyStep(log, p, k);
  }

  lemma UseServedStep(log: seq<Row>, p: Row, uid: string)
    ensures UseServed(log + [p], uid) == UseServed(log, uid) + if p.key.uid == uid then 1 else 0
  {
    assert (log + [p])[..|log|] == log;
  }

  /** The key that was next goes to the back. */
  lemma Rotate(env: Env, log: seq<Row>, p: Row, q: seq<Key>, rest: seq<Key>)
    requires Distinct(env.keys) && q == [p.key] + rest && QueueInTurn(env, log, q)
    ensures QueueInTurn(env, log + [p], rest) && QueueInTurn(env, log + [p], rest + [p.key])
  {
    hide WithKey, Served;
    var k, now, t := p.key, log + [p], rest + [p.key];
    forall x | 0 <= x < |rest|
      ensures rest[x] != k && AheadOf(env.keys, k, rest[x], Served(log, k), Served(log, rest[x]))
    {
      assert q[0] == k && q[x + 1] == rest[x];
      if Before(env.keys, k, rest[x]) {
        BeforeIsOrder(env.keys, k, rest[x]);
      } else {
        BeforeIsOrder(env.keys, rest[x], k);
      }
    }
    forall x, y | 0 <= x < y < |t| ensures AheadOf(env.keys, t[x], t[y], Served(now, t[x]), Served(now, t[y])) {
      ServedStep(log, p, t[x]);
      ServedStep(log, p, t[y]);
      hide Before;
      if y < |rest| {
        assert q[x + 1] == t[x] && q[y + 1] == t[y];
      }
    }
    forall x, y | 0 <= x < y < |rest|
      ensures AheadOf(env.keys, rest[x], rest[y], Served(now, rest[x]), Served(now, rest[y]))
    {
      assert t[x] == rest[x] && t[y] == rest[y];
    }
  }

  /** Keys other than k count as before. */
  lemma OtherQueue(env: Env, log: seq<Row>, p: Row, q: seq<Key>)
    requires QueueInTurn(env, log, q) && p.key !in q
    ensures QueueInTurn(env, log + [p], q)
  {
    hide WithKey, Served, AheadOf;
    forall x, y | 0 <= x < y < |q|
      ensures AheadOf(env.keys, q[x], q[y], Served(log + [p], q[x]), Served(log + [p], q[y]))
    {
      ServedStep(log, p, q[x]);
      ServedStep(log, p, q[y]);
    }
  }

  /** Popping drops keys of empty buckets and the key it returns. */
  lemma {:induction false} PopIsSuffix(buckets: map<Key, seq<Row>>, queue: seq<Key>) returns (j: nat)
    requires forall k :: k in queue ==> k in buckets
    ensures var r := PopKey(buckets, queue);
      && j <= |queue| && r.rest == queue[j..]
      && (forall i :: 0 <= i < j - 1 ==> buckets[queue[i]] == [])
      && (r.key.Some? ==> j > 0 && queue[j - 1] == r.key.value)
      && (r.key.None? ==> j == |queue|)
  {
    if queue == [] {
      j := 0;
    } else if buckets[queue[0]] != [] {
      j := 1;
    } else {
      var i := PopIsSuffix(buckets, queue[1..]);
      j := i + 1;
      assert queue[1..][i..] == queue[j..];
    }
  }

  lemma WaitsInState(env: Env, s: State, k: Key)
    requires Fifo(env, s)
    ensures Waits(env, s.log, k) <==> k in s.buckets && s.buckets[k] != []
  {
    hide WithKey;
  }

  // ----- One visit -----

  /** The uses that wait for their turn: some bucket waits, and the queue is not stuck. */
  ghost function Free(env: Env, s: State): set<string> {
    set u | u in s.queues && UseWaits(env, s.log, u) && !Stuck(env, s, u)
  }

  /** These uses were served as often as each other, those visited in this round once more. */
  ghost predicate UsesInTurn(env: Env, log: seq<Row>, free: set<string>, n: nat) {
    forall x, y :: 0 <= x < y < |Uids(env.keys)| && Uids(env.keys)[x] in free && Uids(env.keys)[y] in free ==>
      UseServed(log, Uids(env.keys)[x]) == UseServed(log, Uids(env.keys)[y]) + if x < n <= y then 1 else 0
  }

  /** Every service so far was in turn, and the queues and the uses are, of which n were visited in this round. */
  ghost predicate Turning(env: Env, s: State, n: nat) {
    Orderly(env, s.log) && QueuesInTurn(env, s) && UsesInTurn(env, s.log, Free(env, s), n)
  }

  /** The head of a stuck queue holds its use up. */
  lemma StuckHoldsUp(env: Env, s: State, u: string)
    requires Inv(env, s) && Queued(s) && u in s.queues && Stuck(env, s, u) && |s.selected| < env.budget
    ensures HeldUp(env, s.log, u)
  {
    hide Safe, Followed, AlmostFollowed, Accounted, Emit, Orphans, WithKey, Waits, UidQueue;
    var k := s.queues[u][0];
    assert k.uid == u by { assert UidQueue(s, u); HeadOfQueue(s, u); }
    WaitsInState(env, s, k);
    assert WithKey(env.probes, k)[Served(s.log, k)] == s.buckets[k][0];
    NotFitting(env, s.selected, s.buckets[k][0]);
  }

  lemma HeadOfQueue(s: State, u: string)
    requires u in s.queues && UidQueue(s, u) && s.queues[u] != []
    ensures s.queues[u][0].uid == u
  {
  }

  lemma NotFitting(env: Env, list: seq<Row>, p: Row)
    requires PushedBack(env, list, p)
    ensures DoesNotFit(env, list, p)
  {
    hide Orphan;
    forall r | r in list ensures r.id != p.baselineId {
    }
  }

  /** A full list, or no place for a pair and none taken: what was pushed back still is. */
  lemma StuckStays(env: Env, s: State, t: State, u: string)
    requires u in s.queues && u in t.queues && s.queues[u] == t.queues[u]
    requires Stuck(env, s, u) && |s.selected| < env.budget
    requires forall k :: k in s.queues[u] && k in s.buckets ==> k in t.buckets && t.buckets[k] == s.buckets[k]
    requires t.selected == s.selected || (|s.selected| < |t.selected| && s.selected <= t.selected)
    ensures Stuck(env, t, u)
  {
    hide Orphan, NewBaseline;
  }

  lemma SettleGrows(env: Env, sel: seq<Row>, p: Row)
    ensures sel <= Settle(env, sel, p)
  {
    hide Orphan, NewBaseline, Appends;
  }

  /** A service takes the first waiting probe of its bucket, and its key to the back of the queue. */
  lemma ServeInTurn(env: Env, s: State, k: Key, rest: seq<Key>)
    requires Proper(env) && Distinct(env.keys) && Fifo(env, s) && Queued(s) && QueuesInTurn(env, s)
    requires k.uid in s.queues && k in s.buckets && s.buckets[k] != [] && |s.selected| < env.budget
    requires !PushedBack(env, s.selected, s.buckets[k][0]) && QueueInTurn(env, s.log, [k] + rest) && k !in rest
    ensures var t := Serve(env, s, k, rest);
      && t.log == s.log + [s.buckets[k][0]] && t.selected == Settle(env, s.selected, s.buckets[k][0])
      && QueuesInTurn(env, t)
  {
    hide QueueInTurn, Orphan, Settle, Appends, PushedBack, Stuck;
    FrontIsProbe(env, s, k);
    var p, t := s.buckets[k][0], Serve(env, s, k, rest);
    Rotate(env, s.log, p, [k] + rest, rest);
    SettleGrows(env, s.selected, p);
    forall u | u in t.queues ensures QueueInTurn(env, t.log, t.queues[u]) || Stuck(env, t, u) {
      if u != k.uid {
        assert UidQueue(s, u);
        if QueueInTurn(env, s.log, s.queues[u]) {
          OtherQueue(env, s.log, p, s.queues[u]);
        } else {
          StuckStays(env, s, t, u);
        }
      }
    }
  }

  /** Only the queue of uid changes. */
  lemma OthersStay(env: Env, s: State, uid: string, queue: seq<Key>)
    requires uid in s.queues && QueuesInTurn(env, s)
    requires var t := s.(queues := s.queues[uid := queue]); QueueInTurn(env, s.log, queue) || Stuck(env, t, uid)
    ensures QueuesInTurn(env, s.(queues := s.queues[uid := queue]))
  {
    hide QueueInTurn, PushedBack;
  }

  lemma SuffixInTurn(env: Env, log: seq<Row>, q: seq<Key>, j: nat)
    requires Distinct(env.keys) && QueueInTurn(env, log, q) && 0 < j <= |q|
    ensures QueueInTurn(env, log, [q[j - 1]] + q[j..]) && q[j - 1] !in q[j..]
    ensures forall i :: j <= i < |q| ==>
      AheadOf(env.keys, q[j - 1], q[i], Served(log, q[j - 1]), Served(log, q[i]))
  {
    hide Served;
    var t := [q[j - 1]] + q[j..];
    forall x, y | 0 <= x < y < |t| ensures AheadOf(env.keys, t[x], t[y], Served(log, t[x]), Served(log, t[y])) {
      assert t[x] == q[x + j - 1] && t[y] == q[y + j - 1];
    }
    forall i | j <= i < |q| ensures q[i] != q[j - 1] {
      assert AheadOf(env.keys, q[j - 1], q[i], Served(log, q[j - 1]), Served(log, q[i]));
    }
  }

  /** A visit touches only what belongs to its use, and the list only grows. */
  lemma VisitFrame(env: Env, s: State, uid: string)
    requires Queued(s) && uid in s.queues
    ensures var t := Visit(env, s, uid);
      && (forall u :: u in s.queues && u != uid ==> u in t.queues && t.queues[u] == s.queues[u])
      && (forall u :: u in t.queues ==> u in s.queues)
      && (forall k :: k in s.buckets && k.uid != uid ==> k in t.buckets && t.buckets[k] == s.buckets[k])
      && s.selected <= t.selected && (t.log == s.log || exists p: Row :: t.log == s.log + [p])
  {
    hide Settle, PushedBack, Appends, Orphan, Queued;
    assert UidQueue(s, uid) by { QueuedAt(s, uid); }
    var Popped(k, queue) := PopKey(s.buckets, s.queues[uid]);
    if k.Some? {
      SettleGrows(env, s.selected, s.buckets[k.value][0]);
      InQueue(s, uid, k.value);
    }
  }

  lemma QueuedAt(s: State, uid: string)
    requires Queued(s) && uid in s.queues
    ensures UidQueue(s, uid)
  {
  }

  lemma InQueue(s: State, uid: string, k: Key)
    requires uid in s.queues && UidQueue(s, uid) && k in s.queues[uid]
    ensures k.uid == uid
  {
  }

  /** A visit frees no other use. */
  lemma OthersStayHeld(env: Env, s: State, uid: string)
    requires Queued(s) && uid in s.queues && |s.selected| < env.budget
    ensures Free(env, Visit(env, s, uid)) <= Free(env, s) + {uid}
  {
    hide Visit, UseWaits, Stuck, Queued;
    VisitFrame(env, s, uid);
    var t := Visit(env, s, uid);
    forall u | u in Free(env, t) && u != uid ensures u in Free(env, s) {
      if t.log != s.log {
        var p: Row :| t.log == s.log + [p];
        WaitedBefore(env, s.log, p, u);
      }
      if Stuck(env, s, u) {
        assert UidQueue(s, u) by { QueuedAt(s, u); }
        StuckStays(env, s, t, u);
      }
    }
  }

  /** Visiting a premise use serves its next bucket if any of them waits, unless the probe is pushed back. */
  lemma VisitInTurn(env: Env, s: State, uid: string)
    requires Proper(env) && Distinct(env.keys) && Inv(env, s) && Queued(s) && uid in s.queues
    requires |s.selected| < env.budget && QueuesInTurn(env, s)
    ensures var t := Visit(env, s, uid);
      && QueuesInTurn(env, t)
      && (t.log == s.log
          || exists p: Row :: t.log == s.log + [p] && p.key.uid == uid && KeyIsNext(env, s.log, p.key)
                              && Extends(env, s.selected, p, t.selected))
      && (if t.log == s.log then uid !in Free(env, t) else uid in Free(env, s))
      && Free(env, t) <= Free(env, s) + {uid}
  {
    hide QueueInTurn, Orphan, Settle, Appends, PushedBack, Safe, Emit, Orphans, Followed, AlmostFollowed, Accounted,
         Waits, AheadOf, Serve, Stuck, KeyIsNext, QueuesInTurn, Extends;
    OthersStayHeld(env, s, uid);
    assert UidQueue(s, uid);
    var queue := s.queues[uid];
    var Popped(key, rest) := PopKey(s.buckets, queue);
    var j := PopIsSuffix(s.buckets, queue);
    forall k: Key ensures Waits(env, s.log, k) <==> k in s.buckets && s.buckets[k] != [] {
      WaitsInState(env, s, k);
    }
    if key.None? {
      assert rest == [];
      EmptyInTurn(env, s.log);
      OthersStay(env, s, uid, rest);
    } else {
      var k := key.value;
      var p := s.buckets[k][0];
      FrontIsProbe(env, s, k);
      assert UseWaits(env, s.log, uid);
      if PushedBack(env, s.selected, p) {
        PushedBackSticks(env, s, k, rest);
      } else {
        NotStuck(env, s, uid, k);
        SuffixInTurn(env, s.log, queue, j);
        ServeInTurn(env, s, k, rest);
        NextKey(env, s, uid, j);
        SettleMeaning(env, s.selected, p);
      }
    }
  }

  lemma PushedBackSticks(env: Env, s: State, k: Key, rest: seq<Key>)
    requires QueuesInTurn(env, s) && k.uid in s.queues && k in s.buckets && s.buckets[k] != []
    requires PushedBack(env, s.selected, s.buckets[k][0])
    ensures var t := Serve(env, s, k, rest);
      QueuesInTurn(env, t) && t.log == s.log && k.uid in t.queues && Stuck(env, t, k.uid)
  {
    hide PushedBack, QueueInTurn, QueuesInTurn;
    var requeued := if s.buckets[k][1..] != [] then rest + [k] else rest;
    OthersStay(env, s, k.uid, [k] + requeued);
  }

  lemma NotStuck(env: Env, s: State, uid: string, k: Key)
    requires Queued(s) && QueuesInTurn(env, s) && uid in s.queues && |s.selected| < env.budget
    requires forall x :: x in s.queues[uid] ==> x in s.buckets
    requires PopKey(s.buckets, s.queues[uid]).key == Some(k) && !PushedBack(env, s.selected, s.buckets[k][0])
    ensures QueueInTurn(env, s.log, s.queues[uid]) && !Stuck(env, s, uid)
  {
    hide PushedBack, QueueInTurn;
  }

  /** The key popped is next among the waiting ones of its use. */
  lemma NextKey(env: Env, s: State, uid: string, j: nat)
    requires Fifo(env, s) && Queued(s) && uid in s.queues && 0 < j <= |s.queues[uid]| && UidQueue(s, uid)
    requires forall i :: 0 <= i < j - 1 ==> s.buckets[s.queues[uid][i]] == []
    requires forall i :: j <= i < |s.queues[uid]| ==>
      var q := s.queues[uid]; AheadOf(env.keys, q[j - 1], q[i], Served(s.log, q[j - 1]), Served(s.log, q[i]))
    ensures KeyIsNext(env, s.log, s.queues[uid][j - 1])
  {
    hide AheadOf, Waits;
    var queue := s.queues[uid];
    var k := queue[j - 1];
    forall l: Key | l != k && l.uid == k.uid && Waits(env, s.log, l)
      ensures AheadOf(env.keys, k, l, Served(s.log, k), Served(s.log, l))
    {
      WaitsInState(env, s, l);
      var i :| 0 <= i < |queue| && queue[i] == l;
    }
  }

  lemma EmptyInTurn(env: Env, log: seq<Row>)
    ensures QueueInTurn(env, log, [])
  {
  }

  // ----- Uses in turn -----

  lemma WaitedBefore(env: Env, log: seq<Row>, p: Row, uid: string)
    requires UseWaits(env, log + [p], uid)
    ensures UseWaits(env, log, uid)
  {
    hide Served;
    var k: Key :| k.uid == uid && Waits(env, log + [p], k);
    ServedStep(log, p, k);
    assert Waits(env, log, k);
  }

  lemma WaitingUse(env: Env, log: seq<Row>, uid: string)
    requires UseWaits(env, log, uid)
    ensures uid in Uids(env.keys)
  {
    UidsMember(env.keys, uid);
  }

  lemma UsesServe(env: Env, log: seq<Row>, p: Row, free: set<string>, still: set<string>, n: nat)
    requires n < |Uids(env.keys)| && p.key.uid == Uids(env.keys)[n] && p.key.uid in free && still <= free
    requires UsesInTurn(env, log, free, n)
    ensures UsesInTurn(env, log + [p], still, n + 1)
    ensures forall u :: u in free && u in Uids(env.keys) && u != p.key.uid ==>
      AheadOf(Uids(env.keys), p.key.uid, u, UseServed(log, p.key.uid), UseServed(log, u))
  {
    hide UseServed, Uids;
    var U, now := Uids(env.keys), log + [p];
    UidsDistinct(env.keys);
    forall x, y | 0 <= x < y < |U| && U[x] in still && U[y] in still
      ensures UseServed(now, U[x]) == UseServed(now, U[y]) + if x < n + 1 <= y then 1 else 0
    {
      UseServedStep(log, p, U[x]);
      UseServedStep(log, p, U[y]);
    }
    forall u | u in free && u in U && u != U[n] ensures AheadOf(U, U[n], u, UseServed(log, U[n]), UseServed(log, u)) {
      var y :| 0 <= y < |U| && U[y] == u;
    }
  }

  lemma UsesIdle(env: Env, log: seq<Row>, free: set<string>, still: set<string>, n: nat)
    requires n < |Uids(env.keys)| && Uids(env.keys)[n] !in still && still <= free + {Uids(env.keys)[n]}
    requires UsesInTurn(env, log, free, n)
    ensures UsesInTurn(env, log, still, n + 1)
  {
    hide UseServed, Uids;
  }

  // ----- The run -----

  lemma OrderlyStep(env: Env, log: seq<Row>, p: Row)
    requires Orderly(env, log) && KeyIsNext(env, log, p.key) && UseIsNext(env, log, p.key.uid)
    requires Extends(env, Emit(env, log), p, Emit(env, log + [p]))
    ensures Orderly(env, log + [p])
  {
    hide KeyIsNext, UseIsNext, Extends, Emit;
    var now := log + [p];
    assert now[..|now|] == now;
    forall b: nat | b < |now| ensures InTurn(env, now, b) {
      if b < |log| {
        assert now[..b] == log[..b] && now[b] == log[b] && now[..b + 1] == log[..b + 1];
        assert InTurn(env, log, b);
      } else {
        assert now[..b] == log;
      }
    }
  }

  lemma InvEmits(env: Env, s: State)
    requires Inv(env, s)
    ensures s.selected == Emit(env, s.log)
  {
  }

  lemma VisitTurning(env: Env, s: State, n: nat)
    requires Proper(env) && Distinct(env.keys) && Inv(env, s) && Queued(s) && |s.selected| < env.budget
    requires n < |Uids(env.keys)| && (forall u :: u in Uids(env.keys) ==> u in s.queues) && Turning(env, s, n)
    ensures Turning(env, Visit(env, s, Uids(env.keys)[n]), n + 1)
  {
    hide Visit, Inv, Queued, QueuesInTurn, UsesInTurn, KeyIsNext, UseIsNext, Free, Orderly, Uids, Extends;
    var uid := Uids(env.keys)[n];
    var t := Visit(env, s, uid);
    VisitInTurn(env, s, uid);
    VisitKeepsInv(env, s, uid);
    InvEmits(env, s);
    InvEmits(env, t);
    if t.log != s.log {
      var p: Row :| t.log == s.log + [p] && p.key.uid == uid && KeyIsNext(env, s.log, p.key)
                    && Extends(env, s.selected, p, t.selected);
      UsesServe(env, s.log, p, Free(env, s), Free(env, t), n);
      UseWasNext(env, s, uid);
      OrderlyStep(env, s.log, p);
    } else {
      UsesIdle(env, s.log, Free(env, s), Free(env, t), n);
    }
  }

  lemma UseWasNext(env: Env, s: State, uid: string)
    requires Inv(env, s) && Queued(s) && |s.selected| < env.budget
    requires forall u :: u in Uids(env.keys) ==> u in s.queues
    requires forall u :: u in Free(env, s) && u in Uids(env.keys) && u != uid ==>
      AheadOf(Uids(env.keys), uid, u, UseServed(s.log, uid), UseServed(s.log, u))
    ensures UseIsNext(env, s.log, uid)
  {
    hide Inv, Queued, Stuck, UseWaits, AheadOf, UseServed, Uids, HeldUp;
    forall u | u != uid && UseWaits(env, s.log, u) && !HeldUp(env, s.log, u)
      ensures AheadOf(Uids(env.keys), uid, u, UseServed(s.log, uid), UseServed(s.log, u))
    {
      WaitingUse(env, s.log, u);
      if Stuck(env, s, u) {
        StuckHoldsUp(env, s, u);
      }
    }
  }

  lemma {:induction false} RoundTurning(env: Env, s: State, n: nat)
    requires Proper(env) && Distinct(env.keys) && Inv(env, s) && Queued(s) && Turning(env, s, n)
    requires n <= |Uids(env.keys)| && forall u :: u in Uids(env.keys) ==> u in s.queues
    ensures var t := Round(env, s, Uids(env.keys)[n..]);
      Orderly(env, t.log) && (|t.selected| < env.budget ==> Turning(env, t, |Uids(env.keys)|))
    decreases |Uids(env.keys)| - n
  {
    hide Visit, Inv, Queued, Turning, Uids;
    var U := Uids(env.keys);
    var uids := U[n..];
    if n == |U| || |s.selected| >= env.budget {
      TurningIsOrderly(env, s, n);
    } else {
      assert uids[0] == U[n] && uids[1..] == U[n + 1..];
      VisitTurning(env, s, n);
      VisitKeepsInv(env, s, U[n]);
      VisitKeepsQueued(env, s, U[n]);
      RoundTurning(env, Visit(env, s, U[n]), n + 1);
    }
  }

  lemma TurningIsOrderly(env: Env, s: State, n: nat)
    requires Turning(env, s, n)
    ensures Orderly(env, s.log)
  {
  }

  /** A finished round is where the next one starts. */
  lemma NextRound(env: Env, s: State)
    requires Turning(env, s, |Uids(env.keys)|)
    ensures Turning(env, s, 0) && Turning(env, s.(progressed := false), 0)
  {
    hide Uids, UseWaits, UseServed, QueueInTurn, Orderly;
    assert Free(env, s.(progressed := false)) == Free(env, s);
  }

  lemma {:induction false} RunTurning(env: Env, s: State)
    requires Proper(env) && Distinct(env.keys) && Inv(env, s) && Queued(s) && Turning(env, s, |Uids(env.keys)|)
    requires forall u :: u in Uids(env.keys) ==> u in s.queues
    ensures Orderly(env, Run(env, s, Uids(env.keys)).log)
    decreases env.budget - |s.selected|
  {
    hide Inv, Queued, Turning, Uids, Round, Drained, Orderly;
    var U := Uids(env.keys);
    TurningIsOrderly(env, s, |U|);
    if |s.selected| < env.budget && !Drained(s) {
      var s0 := s.(progressed := false);
      FlagKeepsInv(env, s);
      NextRound(env, s);
      assert U[0..] == U;
      RoundTurning(env, s0, 0);
      RoundKeepsInv(env, s0, U);
      var t := Round(env, s0, U);
      if t.progressed {
        if |t.selected| < env.budget {
          RunTurning(env, t);
        } else {
          assert Run(env, t, U) == t;
        }
      }
    }
  }

  lemma {:induction false} QueueOrder(keys: seq<Key>, uid: string)
    ensures forall x, y :: 0 <= x < y < |WithUid(keys, uid)| ==>
      Before(keys, WithUid(keys, uid)[x], WithUid(keys, uid)[y])
  {
    if keys == [] {
    } else {
      var head, last := keys[..|keys| - 1], keys[|keys| - 1];
      QueueOrder(head, uid);
      assert keys == head + [last];
      var q := WithUid(keys, uid);
      forall x, y | 0 <= x < y < |q| ensures Before(keys, q[x], q[y]) {
        if y < |WithUid(head, uid)| {
          assert Before(head, q[x], q[y]);
          var i, j :| 0 <= i < j < |head| && head[i] == q[x] && head[j] == q[y];
          assert keys[i] == q[x] && keys[j] == q[y];
        } else {
          assert q[x] in WithUid(head, uid);
          WithUidMember(head, uid, q[x]);
          var i :| 0 <= i < |head| && head[i] == q[x];
          assert keys[i] == q[x] && keys[|head|] == q[y];
        }
      }
    }
  }

  lemma StartTurning(env: Env)
    ensures Turning(env, Start(env), |Uids(env.keys)|)
  {
    hide WithUid, Uids, UseWaits, Before;
    var s := Start(env);
    forall u | u in s.queues ensures QueueInTurn(env, s.log, s.queues[u]) {
      QueueOrder(env.keys, u);
    }
  }

  // ----- Main results -----

  /** Every probe is served in turn. */
  lemma ServesInTurn(env: Env)
    requires Proper(env) && Distinct(env.keys)
    ensures Orderly(env, Outcome(env).log)
  {
    hide Inv, Run, Start, Orderly, Turning, Uids;
    StartQueued(env);
    StartInv(env);
    StartTurning(env);
    RunTurning(env, Start(env));
  }

  lemma {:induction false} ServedBetween(log: seq<Row>, a: nat, b: nat, k: Key)
    requires a <= b <= |log|
    ensures Served(log[..a], k) <= Served(log[..b], k)
    ensures Served(log[..a], k) < Served(log[..b], k) <==> exists c :: a <= c < b && log[c].key == k
    decreases b - a
  {
    hide Served;
    if a < b {
      ServedBetween(log, a, b - 1, k);
      assert log[..b] == log[..b - 1] + [log[b - 1]];
      ServedStep(log[..b - 1], log[b - 1], k);
    }
  }

  lemma {:induction false} UseServedBetween(log: seq<Row>, a: nat, b: nat, uid: string)
    requires a <= b <= |log|
    ensures UseServed(log[..a], uid) <= UseServed(log[..b], uid)
    ensures UseServed(log[..a], uid) < UseServed(log[..b], uid) <==> exists c :: a <= c < b && log[c].key.uid == uid
    decreases b - a
  {
    hide UseServed;
    if a < b {
      UseServedBetween(log, a, b - 1, uid);
      assert log[..b] == log[..b - 1] + [log[b - 1]];
      UseServedStep(log[..b - 1], log[b - 1], uid);
    }
  }

  /** Who is next at both of two services of a was outrun by nobody in between. */
  lemma NextTwice<T>(order: seq<T>, x: T, y: T, x0: nat, y0: nat, x1: nat, y1: nat)
    requires Distinct(order) && x0 < x1 && AheadOf(order, x, y, x0, y0) && AheadOf(order, x, y, x1, y1)
    ensures y0 < y1
  {
    if Before(order, x, y) {
      BeforeIsOrder(order, x, y);
    }
  }

  /** Between two services of one bucket, every other bucket of that premise use that still waits is served. */
  lemma BucketsTakeTurns(env: Env, a: nat, b: nat, l: Key)
    requires Proper(env) && Distinct(env.keys) && a < b < |Outcome(env).log|
    requires var log := Outcome(env).log;
      log[a].key == log[b].key && l != log[a].key && l.uid == log[a].key.uid && Waits(env, log[..b], l)
    ensures exists c :: a < c < b && Outcome(env).log[c].key == l
  {
    ServesInTurn(env);
    var log := Outcome(env).log;
    hide Outcome, Served, AheadOf, UseIsNext, Extends, Emit;
    var k := log[a].key;
    ServedBetween(log, a, b, k);
    ServedBetween(log, a, b, l);
    assert InTurn(env, log, a) && InTurn(env, log, b);
    assert Waits(env, log[..a], l);
    NextTwice(env.keys, k, l, Served(log[..a], k), Served(log[..a], l), Served(log[..b], k), Served(log[..b], l));
  }

  lemma UseTurnAt(env: Env, log: seq<Row>, b: nat, uid: string)
    requires Orderly(env, log) && b < |log|
    requires uid != log[b].key.uid && UseWaits(env, log[..b], uid) && !HeldUp(env, log[..b], uid)
    ensures var u := log[b].key.uid;
      AheadOf(Uids(env.keys), u, uid, UseServed(log[..b], u), UseServed(log[..b], uid))
  {
    hide UseServed, AheadOf, HeldUp, KeyIsNext, Uids, Extends, Emit, UseWaits;
    assert InTurn(env, log, b);
  }

  lemma UseWaitedBefore(env: Env, log: seq<Row>, a: nat, b: nat, uid: string)
    requires a <= b <= |log| && UseWaits(env, log[..b], uid)
    ensures UseWaits(env, log[..a], uid)
  {
    hide Served;
    var k: Key :| k.uid == uid && Waits(env, log[..b], k);
    ServedBetween(log, a, b, k);
    assert Waits(env, log[..a], k);
  }

  lemma {:induction false} WithKeyPrefix(log: seq<Row>, b: nat, k: Key)
    requires b <= |log|
    ensures WithKey(log[..b], k) <= WithKey(log, k)
    decreases |log|
  {
    if b == |log| {
      assert log[..b] == log;
    } else {
      var head := log[..|log| - 1];
      assert log == head + [log[|log| - 1]] && head[..b] == log[..b];
      WithKeyPrefix(head, b, k);
      WithKeyStep(head, log[|log| - 1], k);
    }
  }

  lemma NextEntry(all: seq<Row>, served: seq<Row>, rest: seq<Row>, before: seq<Row>, p: Row)
    requires all == served + rest && before + [p] <= served
    ensures |before| < |all| && all[|before|] == p
  {
    assert served[|before|] == (before + [p])[|before|];
  }

  /** The probe served from a bucket is its next one. */
  ghost predicate TakesNext(env: Env, log: seq<Row>, b: nat)
    requires b < |log|
  {
    Waits(env, log[..b], log[b].key)
    && WithKey(env.probes, log[b].key)[Served(log[..b], log[b].key)] == log[b]
  }

  lemma ServedIsNext(env: Env, log: seq<Row>, b: nat, waiting: seq<Row>)
    requires b < |log| && log[b].key in env.keys
    requires WithKey(env.probes, log[b].key) == WithKey(log, log[b].key) + waiting
    ensures TakesNext(env, log, b)
  {
    hide WithKey;
    var k := log[b].key;
    WithKeyPrefix(log, b + 1, k);
    assert log[..b + 1] == log[..b] + [log[b]];
    WithKeyStep(log[..b], log[b], k);
    NextEntry(WithKey(env.probes, k), WithKey(log, k), waiting, WithKey(log[..b], k), log[b]);
  }

  lemma OutcomeTakesNext(env: Env, b: nat)
    requires Proper(env) && b < |Outcome(env).log|
    ensures TakesNext(env, Outcome(env).log, b)
  {
    OutcomeInv(env);
    hide Outcome, Inv, WithKey, TakesNext;
    LogIsOffered(env, b);
    ScheduleConserves(env, Outcome(env).log[b].key);
    ServedIsNext(env, Outcome(env).log, b, Outcome(env).buckets[Outcome(env).log[b].key]);
  }

  lemma LogIsOffered(env: Env, b: nat)
    requires Proper(env) && Inv(env, Outcome(env)) && b < |Outcome(env).log|
    ensures Outcome(env).log[b] in env.probes && Outcome(env).log[b].key in env.keys
  {
    hide Outcome, Safe, Followed, AlmostFollowed, Accounted, Emit, Orphans, WithKey;
    assert Outcome(env).log[b] in Outcome(env).log;
  }

  /** A use that is held up stays so as long as the list is not full. */
  lemma {:induction false} HeldUpStays(env: Env, a: nat, b: nat, uid: string)
    requires Proper(env) && Distinct(env.keys) && a <= b < |Outcome(env).log|
    requires HeldUp(env, Outcome(env).log[..a], uid)
    ensures HeldUp(env, Outcome(env).log[..b], uid)
    decreases b - a
  {
    hide Outcome, HeldUp;
    if a < b {
      HeldUpStays(env, a, b - 1, uid);
      HeldUpMore(env, b - 1, uid);
    }
  }

  /** With the list not full a bucket that is held up is not served, and the list stays as it was. */
  lemma HeldUpStep(env: Env, log: seq<Row>, b: nat, k: Key, before: seq<Row>, after: seq<Row>)
    requires b < |log| && before == Emit(env, log[..b]) && after == Emit(env, log[..b + 1])
    requires HeldUpAt(env, log[..b], k) && TakesNext(env, log, b)
    requires before <= after && |after| < env.budget && !DoesNotFit(env, before, log[b])
    ensures HeldUpAt(env, log[..b + 1], k)
  {
    hide WithKey, Served, Emit;
    assert log[..b + 1] == log[..b] + [log[b]];
    ServedStep(log[..b], log[b], k);
    SameList(env, before, after, WithKey(env.probes, k)[Served(log[..b], k)]);
    hide DoesNotFit;
  }

  lemma SameList(env: Env, before: seq<Row>, after: seq<Row>, p: Row)
    requires DoesNotFit(env, before, p) && before <= after && |after| < env.budget
    ensures after == before
  {
  }

  lemma HeldUpMore(env: Env, b: nat, uid: string)
    requires Proper(env) && Distinct(env.keys) && b + 1 < |Outcome(env).log|
    requires HeldUp(env, Outcome(env).log[..b], uid)
    ensures HeldUp(env, Outcome(env).log[..b + 1], uid)
  {
    ServesInTurn(env);
    OutcomeTakesNext(env, b);
    var log := Outcome(env).log;
    hide Outcome, TakesNext, HeldUpAt, DoesNotFit, Extends, Emit, KeyIsNext, UseIsNext;
    assert InTurn(env, log, b) && InTurn(env, log, b + 1);
    ExtendsSome(env, Emit(env, log[..b]), log[b], Emit(env, log[..b + 1]));
    ExtendsSome(env, Emit(env, log[..b + 1]), log[b + 1], Emit(env, log[..b + 2]));
    var k: Key :| k.uid == uid && HeldUpAt(env, log[..b], k);
    HeldUpStep(env, log, b, k, Emit(env, log[..b]), Emit(env, log[..b + 1]));
  }

  lemma ExtendsSome(env: Env, list: seq<Row>, p: Row, now: seq<Row>)
    requires Extends(env, list, p, now)
    ensures |list| < env.budget && list <= now && !DoesNotFit(env, list, p)
  {
  }

  /** Between two services of one premise use every other use that still waits is served, unless its next probe
      does not fit and is pushed back. */
  lemma UsesTakeTurns(env: Env, a: nat, b: nat, uid: string)
    requires Proper(env) && Distinct(env.keys) && a < b < |Outcome(env).log|
    requires var log := Outcome(env).log;
      && log[a].key.uid == log[b].key.uid && uid != log[a].key.uid && UseWaits(env, log[..b], uid)
    ensures HeldUp(env, Outcome(env).log[..b], uid) || exists c :: a < c < b && Outcome(env).log[c].key.uid == uid
  {
    ServesInTurn(env);
    var log := Outcome(env).log;
    hide Outcome, UseServed, AheadOf, HeldUp, Orderly, Uids, UseWaits;
    var u := log[a].key.uid;
    if !HeldUp(env, log[..b], uid) {
      if HeldUp(env, log[..a], uid) {
        HeldUpStays(env, a, b, uid);
      }
      UseServedBetween(log, a, b, u);
      UseServedBetween(log, a, b, uid);
      UseWaitedBefore(env, log, a, b, uid);
      UseTurnAt(env, log, a, uid);
      UseTurnAt(env, log, b, uid);
      UidsDistinct(env.keys);
      NextTwice(Uids(env.keys), u, uid, UseServed(log[..a], u), UseServed(log[..a], uid),
                UseServed(log[..b], u), UseServed(log[..b], uid));
    }
  }
}
