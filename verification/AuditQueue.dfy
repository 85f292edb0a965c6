/** The audit job table as a lease state machine (lean_rgc/audit_job_queue.py). Each call is one
    atomic step at a given clock value; the job id is the tuple it is a digest of. */
module AuditQueue {
  import opened Options
  import opened Sums

  datatype Status = Queued | Leased | Running | Succeeded | SucceededFromCache
                  | Failed | TimedOut | Quarantined | Cancelled

  datatype JobKey = JobKey(run: string, task: string, state: string, action: string,
                           backend: string, importMode: string, fingerprint: string)

  datatype Job = Job(status: Status, priority: real, attempts: int, maxAttempts: int,
                     leasedUntil: Option<real>, worker: Option<string>, createdAt: real,
                     lane: string, result: Option<string>)

  type Table = map<JobKey, Job>

  /** The inserts of one enqueue call, in order. */
  datatype Request = Request(keys: seq<JobKey>, maxAttempts: int, lane: string, priority: real)

  /** One action list for all tasks, or one per task id. */
  datatype Actions = Shared(list: seq<string>) | PerTask(byTask: map<string, seq<string>>)

  /** An enqueue call; tasks pairs each task id with the id of its initial state. */
  datatype Batch = Batch(run: string, tasks: seq<(string, string)>, actions: Actions, backend: string,
                         importMode: string, fingerprint: string, maxActions: int, maxAttempts: int,
                         lane: string, priority: real)

  datatype LeaseSpec = LeaseSpec(worker: string, seconds: real, lanes: set<string>, includeQuarantined: bool)

  predicate Terminal(s: Status) {
    s in {Succeeded, SucceededFromCache, TimedOut, Quarantined, Cancelled}
  }

  function FreshJob(r: Request, now: real): Job {
    Job(Queued, r.priority, 0, if r.maxAttempts == 0 then 1 else r.maxAttempts, None, None, now, r.lane, None)
  }

  /** INSERT OR IGNORE for the first n keys of the request. */
  function Enqueued(t: Table, r: Request, now: real, n: nat): (u: Table)
    requires n <= |r.keys|
  {
    if n == 0 then t
    else var u := Enqueued(t, r, now, n - 1);
         if r.keys[n - 1] in u then u else u[r.keys[n - 1] := FreshJob(r, now)]
  }

  predicate HasActions(b: Batch, task: string) { b.actions.Shared? || task in b.actions.byTask }

  /** The actions tried for a task, cut at the maximum. */
  function ActionsFor(b: Batch, task: string): seq<string>
    requires HasActions(b, task)
  {
    var all := if b.actions.Shared? then b.actions.list else b.actions.byTask[task];
    if b.maxActions <= 0 then [] else if b.maxActions < |all| then all[..b.maxActions] else all
  }

  function KeyFor(b: Batch, task: (string, string), action: string): JobKey {
    JobKey(b.run, task.0, task.1, action, b.backend, b.importMode, b.fingerprint)
  }

  /** One key for each of the first m actions of a task. */
  function TaskKeys(b: Batch, task: (string, string), m: nat): seq<JobKey>
    requires HasActions(b, task.0) && m <= |ActionsFor(b, task.0)|
  {
    if m == 0 then [] else TaskKeys(b, task, m - 1) + [KeyFor(b, task, ActionsFor(b, task.0)[m - 1])]
  }

  predicate AllHaveActions(b: Batch) { forall i :: 0 <= i < |b.tasks| ==> HasActions(b, b.tasks[i].0) }

  /** The keys of the first n tasks, task by task. */
  function KeysFor(b: Batch, n: nat): seq<JobKey>
    requires n <= |b.tasks| && forall i :: 0 <= i < n ==> HasActions(b, b.tasks[i].0)
  {
    if n == 0 then []
    else KeysFor(b, n - 1) + TaskKeys(b, b.tasks[n - 1], |ActionsFor(b, b.tasks[n - 1].0)|)
  }

  function RequestWith(b: Batch, keys: seq<JobKey>): Request { Request(keys, b.maxAttempts, b.lane, b.priority) }

  predicate LeaseLive(j: Job, now: real) {
    j.status in {Leased, Running} && j.leasedUntil.Some? && j.leasedUntil.value >= now
  }

  /** The selection condition of a lease query. */
  predicate Eligible(j: Job, now: real, spec: LeaseSpec) {
    && (j.status == Queued
        || (j.status in {Leased, Running} && (if j.leasedUntil.Some? then j.leasedUntil.value else 0.0) < now)
        || (j.status == Failed && j.attempts < j.maxAttempts))
    && (spec.lanes - {""} == {} || j.lane in spec.lanes - {""})
    && (spec.includeQuarantined || j.status != Quarantined)
  }

  /** Higher priority first, then older; ties may be broken either way. */
  predicate Outranks(a: Job, b: Job) {
    a.priority > b.priority || (a.priority == b.priority && a.createdAt <= b.createdAt)
  }

  predicate BestEligible(t: Table, now: real, spec: LeaseSpec, k: JobKey) {
    k in t && Eligible(t[k], now, spec)
    && forall o :: o in t && Eligible(t[o], now, spec) ==> Outranks(t[k], t[o])
  }

  function LeaseEnd(now: real, seconds: real): real {
    var s := if seconds == 0.0 then 300.0 else seconds;
    now + (if s > 1.0 then s else 1.0)
  }

  function LeasedTable(t: Table, k: JobKey, now: real, spec: LeaseSpec): Table
    requires k in t
  {
    t[k := t[k].(status := Leased, leasedUntil := Some(LeaseEnd(now, spec.seconds)), worker := Some(spec.worker))]
  }

  function RunningTable(t: Table, k: JobKey, worker: string): Table {
    if k in t then t[k := t[k].(status := Running, worker := Some(worker), attempts := t[k].attempts + 1)] else t
  }

  function ResultTable(t: Table, k: JobKey, status: Status, result: string): Table {
    if k in t then t[k := t[k].(status := status, result := Some(result), leasedUntil := None)] else t
  }

  predicate Cancellable(k: JobKey, j: Job, run: string) {
    (run == "" || k.run == run) && j.status in {Queued, Leased, Running, Failed}
  }

  /** The empty run id stands for all runs. */
  function CancelledTable(t: Table, run: string): (u: Table)
    ensures u.Keys == t.Keys
  {
    map k | k in t :: if Cancellable(k, t[k], run) then t[k].(status := Cancelled) else t[k]
  }

  // ----- What is promised -----

  /** A job that a lease may take: in one of the named lanes, if any is named, and queued, or held under a
      lease that has run out, or failed with attempts left. */
  predicate MayBeLeased(j: Job, now: real, lanes: set<string>) {
    && ((forall lane :: lane in lanes ==> lane == "") || (j.lane != "" && j.lane in lanes))
    && match j.status
       case Queued => true
       case Leased => (if j.leasedUntil.Some? then j.leasedUntil.value < now else 0.0 < now)
       case Running => (if j.leasedUntil.Some? then j.leasedUntil.value < now else 0.0 < now)
       case Failed => j.attempts < j.maxAttempts
       case _ => false
  }

  lemma EligibleMeaning(j: Job, now: real, spec: LeaseSpec)
    ensures Eligible(j, now, spec) <==> MayBeLeased(j, now, spec.lanes)
  {
    if spec.lanes - {""} == {} {
      forall lane | lane in spec.lanes ensures lane == "" {
        assert lane !in spec.lanes - {""};
      }
    } else {
      var lane :| lane in spec.lanes - {""};
    }
  }

  /** The end of a lease of so many seconds: at least one second away, 300 when none are given. */
  predicate EndsAt(until: real, now: real, seconds: real) {
    if seconds == 0.0 then until == now + 300.0
    else if seconds > 1.0 then until == now + seconds
    else until == now + 1.0
  }

  /** A new row. */
  predicate NewRow(b: Batch, now: real, j: Job) {
    && j.status == Queued && j.priority == b.priority && j.attempts == 0 && j.lane == b.lane && j.createdAt == now
    && j.maxAttempts == (if b.maxAttempts == 0 then 1 else b.maxAttempts)
    && j.leasedUntil == None && j.worker == None && j.result == None
  }

  predicate Listed(b: Batch, task: string) { b.actions.Shared? || task in b.actions.byTask }

  function ListFor(b: Batch, task: string): seq<string>
    requires Listed(b, task)
  {
    if b.actions.Shared? then b.actions.list else b.actions.byTask[task]
  }

  /** The job of one of the first actions of one of the tasks. */
  ghost predicate Requested(b: Batch, k: JobKey) {
    exists i, m ::
      && 0 <= i < |b.tasks| && Listed(b, b.tasks[i].0) && 0 <= m < |ListFor(b, b.tasks[i].0)| && m < b.maxActions
      && k == JobKey(b.run, b.tasks[i].0, b.tasks[i].1, ListFor(b, b.tasks[i].0)[m], b.backend, b.importMode,
                     b.fingerprint)
  }

  /** What enqueueing leaves: the old rows, and a new one for every requested job that was not there. */
  ghost predicate EnqueuedFor(before: Table, b: Batch, now: real, after: Table) {
    && (forall k :: k in after <==> k in before || Requested(b, k))
    && (forall k :: k in before ==> after[k] == before[k])
    && forall k :: k in after && k !in before ==> NewRow(b, now, after[k])
  }

  /** One insert for each of the first actions of each of the first n tasks. */
  function Inserts(b: Batch, n: nat): nat
    requires n <= |b.tasks| && forall i :: 0 <= i < n ==> Listed(b, b.tasks[i].0)
  {
    if n == 0 then 0
    else
      var size := |ListFor(b, b.tasks[n - 1].0)|;
      Inserts(b, n - 1) + if b.maxActions <= 0 then 0 else if b.maxActions < size then b.maxActions else size
  }

  lemma {:induction false} InsertsMeaning(b: Batch, n: nat)
    requires n <= |b.tasks| && forall i :: 0 <= i < n ==> HasActions(b, b.tasks[i].0)
    ensures forall i :: 0 <= i < n ==> Listed(b, b.tasks[i].0)
    ensures |KeysFor(b, n)| == Inserts(b, n)
  {
    if n == 0 {
    } else {
      InsertsMeaning(b, n - 1);
      KeysStep(b, n - 1);
      TaskKeysSize(b, b.tasks[n - 1], |ActionsFor(b, b.tasks[n - 1].0)|);
      hide TaskKeys;
    }
  }

  lemma {:induction false} TaskKeysSize(b: Batch, task: (string, string), m: nat)
    requires HasActions(b, task.0) && m <= |ActionsFor(b, task.0)|
    ensures |TaskKeys(b, task, m)| == m
  {
    if m == 0 {
    } else {
      TaskKeysSize(b, task, m - 1);
    }
  }

  lemma {:induction false} TaskKeysMeaning(b: Batch, task: (string, string), m: nat, k: JobKey)
    requires HasActions(b, task.0) && m <= |ActionsFor(b, task.0)|
    ensures k in TaskKeys(b, task, m) <==> exists x :: 0 <= x < m && k == KeyFor(b, task, ActionsFor(b, task.0)[x])
  {
    if m == 0 {
    } else {
      TaskKeysMeaning(b, task, m - 1, k);
      TaskKeysStep(b, task, m - 1);
    }
  }

  lemma {:induction false} KeysForMeaning(b: Batch, n: nat, k: JobKey)
    requires n <= |b.tasks| && forall i :: 0 <= i < n ==> HasActions(b, b.tasks[i].0)
    ensures k in KeysFor(b, n) <==>
      exists i :: 0 <= i < n && k in TaskKeys(b, b.tasks[i], |ActionsFor(b, b.tasks[i].0)|)
  {
    hide TaskKeys, ActionsFor;
    if n == 0 {
    } else {
      KeysForMeaning(b, n - 1, k);
      KeysStep(b, n - 1);
    }
  }

  lemma ActionsMeaning(b: Batch, task: string, x: nat)
    requires HasActions(b, task)
    ensures Listed(b, task)
    ensures x < |ActionsFor(b, task)| <==> x < |ListFor(b, task)| && x < b.maxActions
    ensures x < |ActionsFor(b, task)| ==> ActionsFor(b, task)[x] == ListFor(b, task)[x]
  {
  }

  lemma RequestedMeaning(b: Batch, k: JobKey)
    requires AllHaveActions(b)
    ensures k in KeysFor(b, |b.tasks|) <==> Requested(b, k)
  {
    hide KeysFor, TaskKeys, ActionsFor, ListFor, Listed;
    KeysForMeaning(b, |b.tasks|, k);
    if k in KeysFor(b, |b.tasks|) {
      var i :| 0 <= i < |b.tasks| && k in TaskKeys(b, b.tasks[i], |ActionsFor(b, b.tasks[i].0)|);
      TaskKeysMeaning(b, b.tasks[i], |ActionsFor(b, b.tasks[i].0)|, k);
      var x :| 0 <= x < |ActionsFor(b, b.tasks[i].0)| && k == KeyFor(b, b.tasks[i], ActionsFor(b, b.tasks[i].0)[x]);
      ActionsMeaning(b, b.tasks[i].0, x);
    }
    if Requested(b, k) {
      var i, m :| 0 <= i < |b.tasks| && Listed(b, b.tasks[i].0)
               && 0 <= m < |ListFor(b, b.tasks[i].0)| && m < b.maxActions
        && k == JobKey(b.run, b.tasks[i].0, b.tasks[i].1, ListFor(b, b.tasks[i].0)[m], b.backend, b.importMode,
                       b.fingerprint);
      ActionsMeaning(b, b.tasks[i].0, m);
      assert k == KeyFor(b, b.tasks[i], ActionsFor(b, b.tasks[i].0)[m]);
      TaskKeysMeaning(b, b.tasks[i], |ActionsFor(b, b.tasks[i].0)|, k);
    }
  }

  lemma {:induction false} EnqueuedHolds(t: Table, r: Request, now: real, n: nat, k: JobKey)
    requires n <= |r.keys|
    ensures k in Enqueued(t, r, now, n) <==> k in t || exists x :: 0 <= x < n && r.keys[x] == k
    ensures k in t ==> k in Enqueued(t, r, now, n) && Enqueued(t, r, now, n)[k] == t[k]
    ensures k !in t && k in Enqueued(t, r, now, n) ==> Enqueued(t, r, now, n)[k] == FreshJob(r, now)
  {
    if n == 0 {
    } else {
      EnqueuedHolds(t, r, now, n - 1, k);
    }
  }

  lemma EnqueuedMeaning(t: Table, b: Batch, now: real)
    requires AllHaveActions(b)
    ensures EnqueuedFor(t, b, now, Enqueued(t, RequestWith(b, KeysFor(b, |b.tasks|)), now, |KeysFor(b, |b.tasks|)|))
  {
    hide KeysFor, Enqueued, Requested;
    var keys := KeysFor(b, |b.tasks|);
    var r := RequestWith(b, keys);
    var u := Enqueued(t, r, now, |keys|);
    forall k
      ensures k in u <==> k in t || Requested(b, k)
      ensures k in t ==> k in u && u[k] == t[k]
      ensures k !in t && k in u ==> NewRow(b, now, u[k])
    {
      EnqueuedHolds(t, r, now, |keys|, k);
      RequestedMeaning(b, k);
    }
  }

  // ----- The calls -----

  lemma {:induction false} BestExists(t: Table, now: real, spec: LeaseSpec, ks: set<JobKey>) returns (k: JobKey)
    requires ks != {} && forall o :: o in ks ==> o in t && Eligible(t[o], now, spec)
    ensures k in ks && forall o :: o in ks ==> Outranks(t[k], t[o])
    decreases |ks|
  {
    k :| k in ks;
    if ks == {k} {
    } else {
      var m := BestExists(t, now, spec, ks - {k});
      if !Outranks(t[k], t[m]) { k := m; }
    }
  }

  lemma {:induction false} EnqueuedPrefix(t: Table, r: Request, q: Request, now: real, n: nat)
    requires n <= |r.keys| && n <= |q.keys| && r.keys[..n] == q.keys[..n] && r.(keys := q.keys) == q
    ensures Enqueued(t, r, now, n) == Enqueued(t, q, now, n)
  {
    if n == 0 {
    } else {
      assert r.keys[n - 1] == r.keys[..n][n - 1] && q.keys[n - 1] == q.keys[..n][n - 1];
      assert r.keys[..n - 1] == r.keys[..n][..n - 1] && q.keys[..n - 1] == q.keys[..n][..n - 1];
      EnqueuedPrefix(t, r, q, now, n - 1);
    }
  }

  lemma EnqueuedStep(t: Table, r: Request, now: real, k: JobKey)
    ensures var u, q := Enqueued(t, r, now, |r.keys|), r.(keys := r.keys + [k]);
      Enqueued(t, q, now, |q.keys|) == if k in u then u else u[k := FreshJob(q, now)]
  {
    EnqueuedPrefix(t, r, r.(keys := r.keys + [k]), now, |r.keys|);
  }

  lemma EnqueuedStart(t: Table, b: Batch, now: real)
    ensures KeysFor(b, 0) == [] && Enqueued(t, RequestWith(b, []), now, 0) == t
  {
  }

  lemma KeysStep(b: Batch, n: nat)
    requires n < |b.tasks| && forall i :: 0 <= i <= n ==> HasActions(b, b.tasks[i].0)
    ensures KeysFor(b, n + 1) == KeysFor(b, n) + TaskKeys(b, b.tasks[n], |ActionsFor(b, b.tasks[n].0)|)
    ensures TaskKeys(b, b.tasks[n], 0) == [] && KeysFor(b, n) + [] == KeysFor(b, n)
  {
  }

  lemma TaskKeysStep(b: Batch, task: (string, string), m: nat)
    requires HasActions(b, task.0) && m < |ActionsFor(b, task.0)|
    ensures TaskKeys(b, task, m + 1) == TaskKeys(b, task, m) + [KeyFor(b, task, ActionsFor(b, task.0)[m])]
  {
  }

  lemma SameFresh(b: Batch, keys: seq<JobKey>, other: seq<JobKey>, now: real)
    ensures FreshJob(RequestWith(b, keys), now) == FreshJob(RequestWith(b, other), now)
  {
  }

  lemma CancelledMeaning(t: Table, run: string)
    ensures forall k :: k in t ==>
      CancelledTable(t, run)[k] == if (run == "" || k.run == run) && !Terminal(t[k].status)
                                   then t[k].(status := Cancelled) else t[k]
    ensures (set k | k in t && Cancellable(k, t[k], run))
         == set k | k in t && CancelledTable(t, run)[k].status == Cancelled && t[k].status != Cancelled
  {
    forall s: Status ensures Terminal(s) || s.Queued? || s.Leased? || s.Running? || s.Failed? {
    }
  }

  class Queue {
    var jobs: Table

    constructor ()
      ensures jobs == map[]
    {
      jobs := map[];
    }

    /** Nothing is stored when some task has no entry in the action table. */
    method Enqueue(b: Batch, now: real) returns (report: Option<(nat, nat)>)
      modifies this
      ensures report.Some? <==> AllHaveActions(b)
      ensures report.None? ==> jobs == old(jobs)
      ensures report.Some? ==>
                var keys := KeysFor(b, |b.tasks|);
                && jobs == Enqueued(old(jobs), RequestWith(b, keys), now, |keys|)
                && report.value.0 + report.value.1 == |keys| && report.value.0 == |jobs| - |old(jobs)|
      ensures report.Some? <==> forall i :: 0 <= i < |b.tasks| ==> Listed(b, b.tasks[i].0)
      ensures report.Some? ==>
        EnqueuedFor(old(jobs), b, now, jobs) && report.value.0 + report.value.1 == Inserts(b, |b.tasks|)
    {
      var table, inserted, reused := jobs, 0, 0;
      ghost var keys: seq<JobKey> := [];
      EnqueuedStart(jobs, b, now);
      hide Enqueued, KeysFor, TaskKeys, FreshJob, EnqueuedFor, Inserts;
      for i := 0 to |b.tasks|
        invariant jobs == old(jobs) && forall x :: 0 <= x < i ==> HasActions(b, b.tasks[x].0)
        invariant keys == KeysFor(b, i) && table == Enqueued(jobs, RequestWith(b, keys), now, |keys|)
        invariant inserted + reused == |keys| && inserted == |table| - |jobs|
      {
        if !HasActions(b, b.tasks[i].0) {
          return None;
        }
        var actions := ActionsFor(b, b.tasks[i].0);
        ghost var before := keys;
        KeysStep(b, i);
        for m := 0 to |actions|
          invariant jobs == old(jobs) && keys == before + TaskKeys(b, b.tasks[i], m)
          invariant table == Enqueued(jobs, RequestWith(b, keys), now, |keys|)
          invariant inserted + reused == |keys| && inserted == |table| - |jobs|
        {
          var k := KeyFor(b, b.tasks[i], actions[m]);
          EnqueuedStep(jobs, RequestWith(b, keys), now, k);
          TaskKeysStep(b, b.tasks[i], m);
          SameFresh(b, keys + [k], [k], now);
          keys := keys + [k];
          if k in table {
            reused := reused + 1;
          } else {
            table := table[k := FreshJob(RequestWith(b, [k]), now)];
            inserted := inserted + 1;
          }
        }
      }
      EnqueuedMeaning(jobs, b, now);
      InsertsMeaning(b, |b.tasks|);
      jobs := table;
      return Some((inserted, reused));
    }

    method LeaseNext(spec: LeaseSpec, now: real) returns (leased: Option<JobKey>)
      modifies this
      ensures leased.None? <==> forall k :: k in old(jobs) ==> !Eligible(old(jobs)[k], now, spec)
      ensures leased.None? ==> jobs == old(jobs)
      ensures leased.Some? ==>
                BestEligible(old(jobs), now, spec, leased.value)
                && jobs == LeasedTable(old(jobs), leased.value, now, spec)
      ensures leased.None? <==> forall k :: k in old(jobs) ==> !MayBeLeased(old(jobs)[k], now, spec.lanes)
      ensures leased.Some? ==>
                var k := leased.value;
                && k in old(jobs) && MayBeLeased(old(jobs)[k], now, spec.lanes) && k in jobs
                && (forall o :: o in old(jobs) && MayBeLeased(old(jobs)[o], now, spec.lanes) ==>
                      || old(jobs)[k].priority > old(jobs)[o].priority
                      || (old(jobs)[k].priority == old(jobs)[o].priority
                          && old(jobs)[k].createdAt <= old(jobs)[o].createdAt))
                && jobs[k].leasedUntil.Some? && EndsAt(jobs[k].leasedUntil.value, now, spec.seconds)
                && jobs == old(jobs)[k := old(jobs)[k].(status := Leased, worker := Some(spec.worker),
                                                        leasedUntil := jobs[k].leasedUntil)]
    {
      hide Eligible, MayBeLeased;
      forall k | k in jobs ensures Eligible(jobs[k], now, spec) <==> MayBeLeased(jobs[k], now, spec.lanes) {
        EligibleMeaning(jobs[k], now, spec);
      }
      var ks := set k | k in jobs && Eligible(jobs[k], now, spec);
      if ks == {} {
        assert forall k :: k in jobs && Eligible(jobs[k], now, spec) ==> k in ks;
        return None;
      }
      ghost var best := BestExists(jobs, now, spec, ks);
      var k :| k in ks && forall o :: o in ks ==> Outranks(jobs[k], jobs[o]);
      jobs := LeasedTable(jobs, k, now, spec);
      return Some(k);
    }

    method MarkRunning(k: JobKey, worker: string)
      modifies this
      ensures jobs == RunningTable(old(jobs), k, worker)
      ensures if k !in old(jobs) then jobs == old(jobs)
              else
                var j := old(jobs)[k];
                jobs == old(jobs)[k := j.(status := Running, worker := Some(worker), attempts := j.attempts + 1)]
    {
      jobs := RunningTable(jobs, k, worker);
    }

    method MarkResult(k: JobKey, status: Status, result: string)
      modifies this
      ensures jobs == ResultTable(old(jobs), k, status, result)
      ensures if k !in old(jobs) then jobs == old(jobs)
              else jobs == old(jobs)[k := old(jobs)[k].(status := status, result := Some(result), leasedUntil := None)]
    {
      jobs := ResultTable(jobs, k, status, result);
    }

    method Cancel(run: string) returns (cancelled: nat)
      modifies this
      ensures jobs == CancelledTable(old(jobs), run)
      ensures cancelled == |set k | k in old(jobs) && Cancellable(k, old(jobs)[k], run)|
      ensures jobs.Keys == old(jobs).Keys && forall k :: k in jobs ==>
                jobs[k] == if (run == "" || k.run == run) && !Terminal(old(jobs)[k].status)
                           then old(jobs)[k].(status := Cancelled) else old(jobs)[k]
      ensures cancelled == |set k | k in old(jobs) && jobs[k].status == Cancelled && old(jobs)[k].status != Cancelled|
    {
      CancelledMeaning(jobs, run);
      cancelled := |set k | k in jobs && Cancellable(k, jobs[k], run)|;
      jobs := CancelledTable(jobs, run);
    }
  }

  // ----- Single-step facts -----

  lemma {:induction false} EnqueuedKeeps(t: Table, r: Request, now: real, n: nat)
    requires n <= |r.keys|
    ensures forall k :: k in t ==> k in Enqueued(t, r, now, n) && Enqueued(t, r, now, n)[k] == t[k]
    ensures forall i :: 0 <= i < n ==> r.keys[i] in Enqueued(t, r, now, n)
    ensures forall k :: k in Enqueued(t, r, now, n) && k !in t ==> Enqueued(t, r, now, n)[k] == FreshJob(r, now)
  {
    if n == 0 {
    } else {
      EnqueuedKeeps(t, r, now, n - 1);
    }
  }

  lemma {:induction false} EnqueuedAgain(t: Table, r: Request, now: real, n: nat)
    requires n <= |r.keys| && forall i :: 0 <= i < n ==> r.keys[i] in t
    ensures Enqueued(t, r, now, n) == t
  {
    if n == 0 {
    } else {
      EnqueuedAgain(t, r, now, n - 1);
    }
  }

  /** Enqueueing the same keys again, whatever the later clock, limits and priority, changes nothing. */
  lemma ReEnqueueIsNoOp(t: Table, r: Request, now: real, r': Request, later: real)
    requires r'.keys == r.keys
    ensures Enqueued(Enqueued(t, r, now, |r.keys|), r', later, |r'.keys|) == Enqueued(t, r, now, |r.keys|)
  {
    EnqueuedKeeps(t, r, now, |r.keys|);
    EnqueuedAgain(Enqueued(t, r, now, |r.keys|), r', later, |r'.keys|);
  }

  // ----- Runs -----

  datatype Event =
    | EnqueueEv(request: Request)
    | LeaseEv(spec: LeaseSpec, leased: Option<JobKey>)
    | RunEv(key: JobKey, worker: string)
    | ResultEv(key: JobKey, worker: string, status: Status, result: string)
    | CacheEv(key: JobKey, result: string)
    | CancelEv(run: string)

  /** A queued job answered from the result cache (lean_rgc/audit_result_cache.py). */
  function CachedTable(t: Table, k: JobKey, result: string): Table {
    if k in t && t[k].status == Queued
    then t[k := t[k].(status := SucceededFromCache, result := Some(result), leasedUntil := None)] else t
  }

  ghost predicate Step(t: Table, now: real, e: Event, u: Table) {
    match e
    case EnqueueEv(r) => u == Enqueued(t, r, now, |r.keys|)
    case LeaseEv(spec, None) => u == t && forall k :: k in t ==> !Eligible(t[k], now, spec)
    case LeaseEv(spec, Some(k)) => BestEligible(t, now, spec, k) && u == LeasedTable(t, k, now, spec)
    case RunEv(k, w) => u == RunningTable(t, k, w)
    case ResultEv(k, _, s, r) => u == ResultTable(t, k, s, r)
    case CacheEv(k, r) => u == CachedTable(t, k, r)
    case CancelEv(run) => u == CancelledTable(t, run)
  }

  predicate HeldBy(j: Job, w: string, until: real) {
    j.status in {Leased, Running} && j.worker == Some(w) && j.leasedUntil == Some(until)
  }

  /** Marks come from the worker whose lease on the job is still live: one running mark per lease,
      and the results a worker reports. */
  ghost predicate Guarded(t: Table, now: real, e: Event) {
    match e
    case RunEv(k, w) => k in t && LeaseLive(t[k], now) && t[k].worker == Some(w) && t[k].status == Leased
    case ResultEv(k, w, s, _) => && k in t && LeaseLive(t[k], now) && t[k].worker == Some(w)
                                 && s in {Succeeded, Failed, TimedOut, Quarantined}
    case _ => true
  }

  datatype History = History(tables: seq<Table>, events: seq<Event>, clock: seq<real>)

  /** A run of calls, guarded or not, with a clock that never goes back. */
  ghost predicate Calls(h: History) {
    && |h.tables| == |h.events| + 1 && |h.clock| == |h.events|
    && (forall i, j :: 0 <= i < j < |h.clock| ==> h.clock[i] <= h.clock[j])
    && (forall i :: 0 <= i < |h.events| ==> Step(h.tables[i], h.clock[i], h.events[i], h.tables[i + 1]))
  }

  /** A run of guarded calls. */
  ghost predicate ValidRun(h: History) {
    Calls(h) && forall i :: 0 <= i < |h.events| ==> Guarded(h.tables[i], h.clock[i], h.events[i])
  }

  lemma StepAt(h: History, i: nat)
    requires ValidRun(h) && i < |h.events|
    ensures Step(h.tables[i], h.clock[i], h.events[i], h.tables[i + 1])
    ensures Guarded(h.tables[i], h.clock[i], h.events[i])
  {
  }

  lemma RunShape(h: History)
    requires ValidRun(h)
    ensures |h.tables| == |h.events| + 1 && |h.clock| == |h.events|
  {
  }

  // ----- Terminal statuses are absorbing -----

  lemma TerminalStep(t: Table, now: real, e: Event, u: Table, k: JobKey)
    requires Step(t, now, e, u) && Guarded(t, now, e) && k in t && Terminal(t[k].status)
    ensures k in u && u[k] == t[k]
  {
    if e.EnqueueEv? { EnqueuedKeeps(t, e.request, now, |e.request.keys|); }
  }

  /** Once a job is finished or cancelled its row never changes again. */
  lemma {:induction false} TerminalForever(h: History, i: nat, j: nat, k: JobKey)
    requires ValidRun(h) && i <= j < |h.tables| && k in h.tables[i] && Terminal(h.tables[i][k].status)
    ensures k in h.tables[j] && h.tables[j][k] == h.tables[i][k]
  {
    if i == j {
    } else {
      hide Step, Guarded, ValidRun;
      TerminalForever(h, i, j - 1, k);
      StepAt(h, j - 1);
      TerminalStep(h.tables[j - 1], h.clock[j - 1], h.events[j - 1], h.tables[j], k);
    }
  }

  /** A running mark on the job, or a result mark that brings anything new to its row. */
  predicate Disturbs(e: Event, k: JobKey, j: Job) {
    || (e.RunEv? && e.key == k)
    || (e.ResultEv? && e.key == k
        && !(j.status == e.status && j.result == Some(e.result) && j.leasedUntil == None))
  }

  /** Without the holder's guard those marks, and no other calls, change a finished job's row. */
  lemma UnguardedChangesIff(t: Table, now: real, e: Event, u: Table, k: JobKey)
    requires Step(t, now, e, u) && k in t && Terminal(t[k].status)
    ensures k in u && (u[k] != t[k] <==> Disturbs(e, k, t[k]))
  {
    if e.EnqueueEv? { EnqueuedKeeps(t, e.request, now, |e.request.keys|); }
  }

  /** From table i on the job's row stays as it was there. */
  ghost predicate Undisturbed(h: History, i: nat, k: JobKey)
    requires i < |h.tables| && k in h.tables[i]
  {
    forall j :: i <= j < |h.tables| ==> k in h.tables[j] && h.tables[j][k] == h.tables[i][k]
  }

  lemma {:induction false} UndisturbedUpTo(h: History, i: nat, j: nat, k: JobKey)
    requires Calls(h) && i <= j < |h.tables| && k in h.tables[i] && Terminal(h.tables[i][k].status)
    requires forall m :: i <= m < j ==> !Disturbs(h.events[m], k, h.tables[i][k])
    ensures k in h.tables[j] && h.tables[j][k] == h.tables[i][k]
  {
    if i == j {
    } else {
      hide Step, Disturbs;
      UndisturbedUpTo(h, i, j - 1, k);
      UnguardedChangesIff(h.tables[j - 1], h.clock[j - 1], h.events[j - 1], h.tables[j], k);
    }
  }

  /** In a run of any calls a finished job's row never changes again exactly when no such mark occurs. */
  lemma TerminalForeverIff(h: History, i: nat, k: JobKey)
    requires Calls(h) && i < |h.tables| && k in h.tables[i] && Terminal(h.tables[i][k].status)
    ensures Undisturbed(h, i, k) <==> forall m :: i <= m < |h.events| ==> !Disturbs(h.events[m], k, h.tables[i][k])
  {
    hide Step, Disturbs;
    if forall m :: i <= m < |h.events| ==> !Disturbs(h.events[m], k, h.tables[i][k]) {
      forall j | i <= j < |h.tables| ensures k in h.tables[j] && h.tables[j][k] == h.tables[i][k] {
        UndisturbedUpTo(h, i, j, k);
      }
    } else {
      var m :| i <= m < |h.events| && Disturbs(h.events[m], k, h.tables[i][k]);
      if Undisturbed(h, i, k) {
        UnguardedChangesIff(h.tables[m], h.clock[m], h.events[m], h.tables[m + 1], k);
      }
    }
  }

  lemma CancelFinishes(t: Table, run: string, k: JobKey)
    requires k in t && (run == "" || k.run == run)
    ensures Terminal(CancelledTable(t, run)[k].status)
    ensures CancelledTable(t, run)[k] == if Terminal(t[k].status) then t[k] else t[k].(status := Cancelled)
  {
    var s := t[k].status;
    assert Terminal(s) || s.Queued? || s.Leased? || s.Running? || s.Failed?;
  }

  /** A cancellation is final: no later lease hands out any job of the run that was in the table then,
      and its row stays as the call left it. */
  lemma CancelIsFinal(h: History, i: nat, j: nat, k: JobKey)
    requires ValidRun(h) && i < j < |h.events| && h.events[i].CancelEv?
    requires k in h.tables[i] && (h.events[i].run == "" || k.run == h.events[i].run)
    ensures !(h.events[j].LeaseEv? && h.events[j].leased == Some(k))
    ensures var was := h.tables[i][k];
      k in h.tables[j] && h.tables[j][k] == if Terminal(was.status) then was else was.(status := Cancelled)
  {
    StepAt(h, i);
    StepAt(h, j);
    CancelFinishes(h.tables[i], h.events[i].run, k);
    TerminalForever(h, i + 1, j, k);
    hide ValidRun;
  }

  // ----- One live holder -----

  /** A live lease survives every call except its holder's result and a cancellation. */
  lemma HeldStep(t: Table, now: real, e: Event, u: Table, k: JobKey, w: string, until: real)
    requires Step(t, now, e, u) && Guarded(t, now, e) && k in t && now <= until
    requires HeldBy(t[k], w, until) || t[k].status == Cancelled
    requires !(e.ResultEv? && e.key == k && e.worker == w)
    ensures k in u && (HeldBy(u[k], w, until) || u[k].status == Cancelled)
    ensures e.LeaseEv? ==> e.leased != Some(k)
  {
    if e.EnqueueEv? { EnqueuedKeeps(t, e.request, now, |e.request.keys|); }
  }

  lemma {:induction false} HeldThrough(h: History, i: nat, j: nat, k: JobKey)
    requires ValidRun(h) && i < j < |h.events|
    requires h.events[i].LeaseEv? && h.events[i].leased == Some(k)
    requires h.clock[j - 1] <= LeaseEnd(h.clock[i], h.events[i].spec.seconds)
    requires forall m :: i < m < j ==>
      !(h.events[m].ResultEv? && h.events[m].key == k && h.events[m].worker == h.events[i].spec.worker)
    ensures k in h.tables[j]
    ensures HeldBy(h.tables[j][k], h.events[i].spec.worker, LeaseEnd(h.clock[i], h.events[i].spec.seconds))
         || h.tables[j][k].status == Cancelled
  {
    StepAt(h, j - 1);
    if i + 1 == j {
    } else {
      HeldThrough(h, i, j - 1, k);
      HeldStep(h.tables[j - 1], h.clock[j - 1], h.events[j - 1], h.tables[j], k, h.events[i].spec.worker,
               LeaseEnd(h.clock[i], h.events[i].spec.seconds));
    }
  }

  /** No job is handed out twice while the first lease is live: a second lease within the first
      one's term comes after a result reported by the first holder. */
  lemma NoDoubleHandout(h: History, i: nat, j: nat, k: JobKey) returns (m: nat)
    requires ValidRun(h) && i < j < |h.events|
    requires h.events[i].LeaseEv? && h.events[i].leased == Some(k)
    requires h.events[j].LeaseEv? && h.events[j].leased == Some(k)
    requires h.clock[j] <= LeaseEnd(h.clock[i], h.events[i].spec.seconds)
    ensures i < m < j && h.events[m].ResultEv? && h.events[m].key == k && h.events[m].worker == h.events[i].spec.worker
  {
    var w := h.events[i].spec.worker;
    if m' :| i < m' < j && h.events[m'].ResultEv? && h.events[m'].key == k && h.events[m'].worker == w {
      m := m';
    } else {
      HeldThrough(h, i, j, k);
      StepAt(h, j);
      HeldStep(h.tables[j], h.clock[j], h.events[j], h.tables[j + 1], k, w,
               LeaseEnd(h.clock[i], h.events[i].spec.seconds));
      assert false;
    }
  }

  // ----- Attempts -----

  function Limit(j: Job): int { if j.maxAttempts > 1 then j.maxAttempts else 1 }

  predicate Budgeted(j: Job) {
    && 0 <= j.attempts <= Limit(j)
    && (j.status == Queued ==> j.attempts == 0)
    && (j.status == Leased ==> j.attempts < Limit(j))
  }

  ghost predicate AllBudgeted(t: Table) { forall k :: k in t ==> Budgeted(t[k]) }

  /** A lease picks up an expired running job that has used up its attempts. */
  predicate Overrun(t: Table, e: Event) {
    e.LeaseEv? && e.leased.Some? && var k := e.leased.value;
    k in t && t[k].status == Running && t[k].attempts >= 1 && t[k].attempts >= t[k].maxAttempts
  }

  /** Event i overruns the job, and a later event before n starts it. */
  ghost predicate OverrunStarted(h: History, i: nat, j: nat, k: JobKey)
    requires |h.tables| == |h.events| + 1
  {
    && i < j < |h.events|
    && Overrun(h.tables[i], h.events[i]) && h.events[i].leased == Some(k)
    && h.events[j].RunEv? && h.events[j].key == k
  }

  /** No job is ever started more often than its limit, the larger of its own maximum and one. */
  ghost predicate LimitsHold(h: History) {
    forall n, k :: 0 <= n < |h.tables| && k in h.tables[n] ==>
      h.tables[n][k].attempts <= 1 || h.tables[n][k].attempts <= h.tables[n][k].maxAttempts
  }

  lemma AttemptsGrowStep(t: Table, now: real, e: Event, u: Table, k: JobKey)
    requires Step(t, now, e, u) && k in t
    ensures k in u && Limit(u[k]) == Limit(t[k])
    ensures u[k].attempts == t[k].attempts + if e.RunEv? && e.key == k then 1 else 0
  {
    if e.EnqueueEv? { EnqueuedKeeps(t, e.request, now, |e.request.keys|); }
  }

  lemma {:induction false} AttemptsGrow(h: History, i: nat, j: nat, k: JobKey)
    requires Calls(h) && i <= j < |h.tables| && k in h.tables[i]
    ensures k in h.tables[j] && Limit(h.tables[j][k]) == Limit(h.tables[i][k])
    ensures h.tables[j][k].attempts >= h.tables[i][k].attempts
  {
    if i == j {
    } else {
      hide Step, Limit;
      AttemptsGrow(h, i, j - 1, k);
      AttemptsGrowStep(h.tables[j - 1], h.clock[j - 1], h.events[j - 1], h.tables[j], k);
    }
  }

  lemma BudgetStep(t: Table, now: real, e: Event, u: Table, k: JobKey)
    requires Step(t, now, e, u) && Guarded(t, now, e) && k in u && (k in t ==> Budgeted(t[k]))
    ensures if Overrun(t, e) && e.leased == Some(k) then u[k].attempts <= Limit(u[k]) else Budgeted(u[k])
  {
    if e.EnqueueEv? { EnqueuedKeeps(t, e.request, now, |e.request.keys|); }
  }

  /** The job is within its limit, and overrun before event n if it is not within it by the strict bound
      that a lease needs. */
  ghost predicate BudgetedOrOverrun(h: History, n: nat, k: JobKey)
    requires n < |h.tables| == |h.events| + 1 && k in h.tables[n]
  {
    || Budgeted(h.tables[n][k])
    || (h.tables[n][k].attempts <= Limit(h.tables[n][k])
        && exists i :: 0 <= i < n && Overrun(h.tables[i], h.events[i]) && h.events[i].leased == Some(k))
  }

  lemma {:induction false} LimitKept(h: History, n: nat, k: JobKey)
    requires ValidRun(h) && AllBudgeted(h.tables[0]) && n < |h.tables| && k in h.tables[n]
    requires forall i, j :: !OverrunStarted(h, i, j, k)
    ensures BudgetedOrOverrun(h, n, k)
  {
    if n == 0 {
    } else {
      hide Step, Guarded, Overrun, Budgeted, Limit;
      var t, e := h.tables[n - 1], h.events[n - 1];
      StepAt(h, n - 1);
      if k in t {
        LimitKept(h, n - 1, k);
      }
      if k in t && !Budgeted(t[k]) {
        var i :| 0 <= i < n - 1 && Overrun(h.tables[i], h.events[i]) && h.events[i].leased == Some(k);
        assert !OverrunStarted(h, i, n - 1, k);
        AttemptsGrowStep(t, h.clock[n - 1], e, h.tables[n], k);
      } else {
        BudgetStep(t, h.clock[n - 1], e, h.tables[n], k);
      }
    }
  }

  lemma OverrunStartedExceeds(h: History, i: nat, j: nat, k: JobKey)
    requires ValidRun(h) && OverrunStarted(h, i, j, k)
    ensures k in h.tables[j + 1] && h.tables[j + 1][k].attempts > Limit(h.tables[j + 1][k])
  {
    hide Step, Guarded;
    StepAt(h, j);
    AttemptsGrow(h, i, j, k);
    AttemptsGrowStep(h.tables[j], h.clock[j], h.events[j], h.tables[j + 1], k);
  }

  /** The attempt limits hold throughout a run exactly when no job is started after a lease has picked it
      up expired, running and with its attempts used up. */
  lemma LimitsHoldIff(h: History)
    requires ValidRun(h) && AllBudgeted(h.tables[0])
    ensures LimitsHold(h) <==> forall i, j, k :: !OverrunStarted(h, i, j, k)
  {
    RunShape(h);
    hide ValidRun, AllBudgeted, Overrun, Limit;
    if forall i, j, k :: !OverrunStarted(h, i, j, k) {
      forall n, k | 0 <= n < |h.tables| && k in h.tables[n]
        ensures h.tables[n][k].attempts <= Limit(h.tables[n][k])
      {
        LimitKept(h, n, k);
      }
    } else {
      var i, j, k :| OverrunStarted(h, i, j, k);
      OverrunStartedExceeds(h, i, j, k);
    }
  }

  /** The overruns of one job among the first n events. */
  ghost function Overruns(h: History, n: nat, k: JobKey): nat
    requires |h.tables| == |h.events| + 1 && n <= |h.events|
  {
    if n == 0 then 0
    else
      Overruns(h, n - 1, k)
      + if Overrun(h.tables[n - 1], h.events[n - 1]) && h.events[n - 1].leased == Some(k) then 1 else 0
  }

  /** Within the limit and m starts more. */
  predicate WithinBy(j: Job, m: nat) {
    && 0 <= j.attempts <= Limit(j) + m
    && (j.status == Queued ==> j.attempts == 0)
    && (j.status == Leased ==> j.attempts < Limit(j) + m)
  }

  lemma OverrunStep(t: Table, now: real, e: Event, u: Table, k: JobKey, m: nat)
    requires Step(t, now, e, u) && Guarded(t, now, e) && k in u && (k in t ==> WithinBy(t[k], m))
    ensures WithinBy(u[k], m + if Overrun(t, e) && e.leased == Some(k) then 1 else 0)
  {
    if e.EnqueueEv? { EnqueuedKeeps(t, e.request, now, |e.request.keys|); }
  }

  /** From an empty table no job is started more often than its limit and the number of its overruns. */
  lemma {:induction false} AttemptsBounded(h: History, n: nat, k: JobKey)
    requires ValidRun(h) && h.tables[0] == map[] && n < |h.tables| && k in h.tables[n]
    ensures WithinBy(h.tables[n][k], Overruns(h, n, k))
  {
    if n == 0 {
    } else {
      hide Step, Guarded, Overrun, WithinBy;
      if k in h.tables[n - 1] {
        AttemptsBounded(h, n - 1, k);
      }
      StepAt(h, n - 1);
      OverrunStep(h.tables[n - 1], h.clock[n - 1], h.events[n - 1], h.tables[n], k, Overruns(h, n - 1, k));
    }
  }

  // ----- The bound is attained -----

  function LastTable(h: History): Table
    requires h.tables != []
  {
    h.tables[|h.tables| - 1]
  }

  function Then(h: History, now: real, e: Event, u: Table): History {
    History(h.tables + [u], h.events + [e], h.clock + [now])
  }

  lemma ThenIsValid(h: History, now: real, e: Event, u: Table)
    requires ValidRun(h) && (h.clock != [] ==> h.clock[|h.clock| - 1] <= now)
    requires Step(LastTable(h), now, e, u) && Guarded(LastTable(h), now, e)
    ensures ValidRun(Then(h, now, e, u)) && LastTable(Then(h, now, e, u)) == u
  {
    hide Step, Guarded;
    var g := Then(h, now, e, u);
    forall i, j | 0 <= i < j < |g.clock| ensures g.clock[i] <= g.clock[j] {
      if j == |h.clock| {
        assert h.clock[i] <= h.clock[|h.clock| - 1];
      }
    }
    forall i | 0 <= i < |g.events|
      ensures Step(g.tables[i], g.clock[i], g.events[i], g.tables[i + 1])
           && Guarded(g.tables[i], g.clock[i], g.events[i])
    {
      if i < |h.events| {
        StepAt(h, i);
      }
    }
  }

  lemma {:induction false} ThenOverruns(h: History, now: real, e: Event, u: Table, n: nat, k: JobKey)
    requires |h.tables| == |h.events| + 1 && n <= |h.events|
    ensures Overruns(Then(h, now, e, u), n, k) == Overruns(h, n, k)
  {
    hide Overrun;
    if n == 0 {
    } else {
      ThenOverruns(h, now, e, u, n - 1, k);
    }
  }

  const SAMPLE_SPEC := LeaseSpec("w", 1.0, {}, false)

  /** The only job after n rounds of lease, start and expiry. */
  function Started(r: Request, n: nat): Job {
    if n == 0 then FreshJob(r, 0.0)
    else FreshJob(r, 0.0).(status := Running, attempts := n, leasedUntil := Some(LeaseEnd(2.0 * n as real, 1.0)),
                           worker := Some("w"))
  }

  /** A run that has enqueued one job and started it n times. */
  ghost predicate After(h: History, r: Request, k: JobKey, n: nat) {
    && ValidRun(h) && |h.tables| == |h.events| + 1 && h.tables[0] == map[] && LastTable(h) == map[k := Started(r, n)]
    && h.clock != [] && h.clock[|h.clock| - 1] == 2.0 * n as real
    && Overruns(h, |h.events|, k) == if n <= Limit(Started(r, n)) then 0 else n - Limit(Started(r, n))
  }

  lemma AfterEnqueue(r: Request, k: JobKey) returns (h: History)
    requires r.keys == [k]
    ensures After(h, r, k, 0)
  {
    var start, first := History([map[]], [], []), map[k := FreshJob(r, 0.0)];
    assert Enqueued(map[], r, 0.0, 0) == map[];
    assert Enqueued(map[], r, 0.0, 1) == first;
    ThenIsValid(start, 0.0, EnqueueEv(r), first);
    h := Then(start, 0.0, EnqueueEv(r), first);
    assert Overruns(h, 0, k) == 0;
  }

  /** One more event at the end. */
  lemma AfterThen(h: History, now: real, e: Event, u: Table, k: JobKey)
    requires ValidRun(h) && h.clock != [] && h.clock[|h.clock| - 1] <= now
    requires Step(LastTable(h), now, e, u) && Guarded(LastTable(h), now, e)
    ensures var g := Then(h, now, e, u);
      && ValidRun(g) && |g.tables| == |g.events| + 1 && g.tables[0] == h.tables[0] && LastTable(g) == u
      && g.clock != [] && g.clock[|g.clock| - 1] == now
      && Overruns(g, |g.events|, k)
         == Overruns(h, |h.events|, k) + if Overrun(LastTable(h), e) && e.leased == Some(k) then 1 else 0
  {
    hide Step, Guarded, Overrun;
    ThenIsValid(h, now, e, u);
    ThenOverruns(h, now, e, u, |h.events|, k);
  }

  lemma LeaseAgain(r: Request, k: JobKey, n: nat)
    ensures var t, now := map[k := Started(r, n)], 2.0 * (n + 1) as real;
      var leased := LeasedTable(t, k, now, SAMPLE_SPEC);
      && Step(t, now, LeaseEv(SAMPLE_SPEC, Some(k)), leased)
      && Step(leased, now, RunEv(k, "w"), map[k := Started(r, n + 1)]) && Guarded(leased, now, RunEv(k, "w"))
  {
    var t, now := map[k := Started(r, n)], 2.0 * (n + 1) as real;
    assert BestEligible(t, now, SAMPLE_SPEC, k);
    assert RunningTable(LeasedTable(t, k, now, SAMPLE_SPEC), k, "w") == map[k := Started(r, n + 1)];
  }

  /** The lease expires, and the job is leased and started again. */
  lemma AfterRound(g: History, r: Request, k: JobKey, n: nat) returns (h: History)
    requires After(g, r, k, n)
    ensures After(h, r, k, n + 1)
  {
    hide ValidRun, Overruns, Step, Guarded;
    var now := 2.0 * (n + 1) as real;
    var t := map[k := Started(r, n)];
    var leased := LeasedTable(t, k, now, SAMPLE_SPEC);
    LeaseAgain(r, k, n);
    GuardFree(t, now, k);
    AfterThen(g, now, LeaseEv(SAMPLE_SPEC, Some(k)), leased, k);
    var m := Then(g, now, LeaseEv(SAMPLE_SPEC, Some(k)), leased);
    AfterThen(m, now, RunEv(k, "w"), map[k := Started(r, n + 1)], k);
    h := Then(m, now, RunEv(k, "w"), map[k := Started(r, n + 1)]);
  }

  lemma GuardFree(t: Table, now: real, k: JobKey)
    ensures Guarded(t, now, LeaseEv(SAMPLE_SPEC, Some(k)))
  {
  }

  lemma {:induction false} Rounds(r: Request, k: JobKey, n: nat) returns (h: History)
    requires r.keys == [k]
    ensures After(h, r, k, n)
  {
    if n == 0 {
      h := AfterEnqueue(r, k);
    } else {
      var g := Rounds(r, k, n - 1);
      h := AfterRound(g, r, k, n - 1);
    }
  }

  /** For every limit and every d some run from an empty table overruns a job d times and starts it d
      times more than the limit. */
  lemma BoundIsAttained(r: Request, k: JobKey, d: nat) returns (h: History)
    requires r.keys == [k]
    ensures ValidRun(h) && h.tables[0] == map[] && k in LastTable(h)
    ensures Overruns(h, |h.events|, k) == d && LastTable(h)[k].attempts == Limit(LastTable(h)[k]) + d
  {
    var n := Limit(FreshJob(r, 0.0)) + d;
    h := Rounds(r, k, n);
  }

  /** Executions: running marks among the first n events. */
  function Starts(events: seq<Event>, n: nat): nat
    requires n <= |events|
  {
    if n == 0 then 0 else Starts(events, n - 1) + (if events[n - 1].RunEv? then 1 else 0)
  }

  ghost function AttemptsOf(t: Table): JobKey -> real {
    k => if k in t then t[k].attempts as real else 0.0
  }

  ghost function LimitOf(t: Table): JobKey -> real {
    k => if k in t then Limit(t[k]) as real else 0.0
  }

  ghost function TotalAttempts(t: Table): real { SumOver(t.Keys, AttemptsOf(t)) }

  lemma AttemptsSame(t: Table, u: Table)
    requires t.Keys <= u.Keys && (forall k :: k in t ==> u[k].attempts == t[k].attempts)
    requires forall k :: k in u && k !in t ==> u[k].attempts == 0
    ensures TotalAttempts(u) == TotalAttempts(t)
  {
    SumSupport(t.Keys, u.Keys, AttemptsOf(u));
    SumCong(t.Keys, AttemptsOf(u), AttemptsOf(t));
  }

  lemma AttemptsRun(t: Table, k: JobKey, w: string)
    requires k in t
    ensures TotalAttempts(RunningTable(t, k, w)) == TotalAttempts(t) + 1.0
  {
    var u := RunningTable(t, k, w);
    assert u.Keys == t.Keys;
    SumRemove(t.Keys, AttemptsOf(t), k);
    SumRemove(u.Keys, AttemptsOf(u), k);
    SumCong(t.Keys - {k}, AttemptsOf(t), AttemptsOf(u));
  }

  lemma AttemptsStep(t: Table, now: real, e: Event, u: Table)
    requires Step(t, now, e, u) && Guarded(t, now, e)
    ensures TotalAttempts(u) == TotalAttempts(t) + (if e.RunEv? then 1.0 else 0.0)
  {
    if e.RunEv? {
      AttemptsRun(t, e.key, e.worker);
    } else {
      if e.EnqueueEv? { EnqueuedKeeps(t, e.request, now, |e.request.keys|); }
      AttemptsSame(t, u);
    }
  }

  lemma {:induction false} StartsAreAttempts(h: History, n: nat)
    requires ValidRun(h) && n < |h.tables| && h.tables[0] == map[]
    ensures Starts(h.events, n) as real == TotalAttempts(h.tables[n])
  {
    if n == 0 {
    } else {
      hide Step, Guarded, TotalAttempts, ValidRun;
      assert |h.tables| == |h.events| + 1 && |h.clock| == |h.events| by { RunShape(h); }
      StartsAreAttempts(h, n - 1);
      StepAt(h, n - 1);
      AttemptsStep(h.tables[n - 1], h.clock[n - 1], h.events[n - 1], h.tables[n]);
    }
  }

  /** The overruns of all jobs among the first n events. */
  ghost function AllOverruns(h: History, n: nat): nat
    requires |h.tables| == |h.events| + 1 && n <= |h.events|
  {
    if n == 0 then 0
    else AllOverruns(h, n - 1) + if Overrun(h.tables[n - 1], h.events[n - 1]) then 1 else 0
  }

  ghost function OverrunsOf(h: History, n: nat): JobKey -> real
    requires |h.tables| == |h.events| + 1 && n <= |h.events|
  {
    k => Overruns(h, n, k) as real
  }

  /** One event adds at most one overrun, to one job. */
  lemma OverrunsMove(h: History, n: nat, ks: set<JobKey>)
    requires |h.tables| == |h.events| + 1 && 0 < n <= |h.events|
    ensures SumOver(ks, OverrunsOf(h, n))
         <= SumOver(ks, OverrunsOf(h, n - 1)) + if Overrun(h.tables[n - 1], h.events[n - 1]) then 1.0 else 0.0
  {
    var e := h.events[n - 1];
    if Overrun(h.tables[n - 1], e) && e.leased.value in ks {
      var k := e.leased.value;
      SumRemove(ks, OverrunsOf(h, n), k);
      SumRemove(ks, OverrunsOf(h, n - 1), k);
      SumCong(ks - {k}, OverrunsOf(h, n), OverrunsOf(h, n - 1));
    } else {
      SumCong(ks, OverrunsOf(h, n), OverrunsOf(h, n - 1));
    }
  }

  lemma {:induction false} OverrunsTotal(h: History, n: nat, ks: set<JobKey>)
    requires |h.tables| == |h.events| + 1 && n <= |h.events|
    ensures SumOver(ks, OverrunsOf(h, n)) <= AllOverruns(h, n) as real
  {
    hide Overrun;
    if n == 0 {
      SumScale(ks, 0.0, OverrunsOf(h, 0), OverrunsOf(h, 0));
    } else {
      OverrunsTotal(h, n - 1, ks);
      OverrunsMove(h, n, ks);
      hide OverrunsOf;
    }
  }

  /** From an empty table a run executes at most the sum of the attempt limits of its jobs and the number
      of overruns. */
  lemma ExecutionsBounded(h: History, n: nat)
    requires ValidRun(h) && n < |h.tables| && h.tables[0] == map[]
    ensures Starts(h.events, n) as real <= SumOver(h.tables[n].Keys, LimitOf(h.tables[n])) + AllOverruns(h, n) as real
  {
    hide ValidRun, Overruns, AllOverruns, Starts;
    RunShape(h);
    StartsAreAttempts(h, n);
    var t := h.tables[n];
    var bound := k => LimitOf(t)(k) + OverrunsOf(h, n)(k);
    forall k | k in t ensures AttemptsOf(t)(k) <= bound(k) {
      AttemptsBounded(h, n, k);
      assert t[k].attempts <= Limit(t[k]) + Overruns(h, n, k);
      assert LimitOf(t)(k) == Limit(t[k]) as real && OverrunsOf(h, n)(k) == Overruns(h, n, k) as real;
    }
    SumLe(t.Keys, AttemptsOf(t), bound);
    SumAdd(t.Keys, LimitOf(t), OverrunsOf(h, n), bound);
    OverrunsTotal(h, n, t.Keys);
  }
}
