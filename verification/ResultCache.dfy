/** The content-keyed cache of audit results and how it is applied to, and filled from, the job
    queue (lean_rgc/audit_result_cache.py). The cache key is the tuple of fields it is a digest of. */
module ResultCache {
  import opened AuditQueue
  import opened Options

  const RUNTIME_DEFAULT_MAX_HEARTBEATS := 200000
  const DEFAULT_CACHE_LANE := "source_check"

  datatype TaskPart = TaskPart(taskId: string, statement: string, imports: seq<string>, prefix: string,
                               ns: string, allowedAxioms: seq<string>, maxHeartbeats: Option<int>)

  datatype StatePart = StatePart(stateId: string, taskId: string, target: string, goalsText: string,
                                 localContext: string, features: string)

  datatype ActionPart = ActionPart(actionId: string, tactic: string, maxHeartbeats: Option<int>)

  datatype Payload = Payload(task: TaskPart, state: StatePart, action: ActionPart)

  datatype Context = Context(leanVersion: string, workdirFingerprint: string, importMode: string, traceState: bool)

  datatype CacheKey = CacheKey(
    task: (string, string, seq<string>, string, string, seq<string>), state: StatePart, tactic: string,
    leanVersion: string, workdirFingerprint: string, importMode: string, maxHeartbeats: int,
    traceState: bool, lane: string)

  function MaxHeartbeats(p: Payload): int {
    if p.action.maxHeartbeats.Some? then p.action.maxHeartbeats.value
    else if p.task.maxHeartbeats.Some? then p.task.maxHeartbeats.value
    else RUNTIME_DEFAULT_MAX_HEARTBEATS
  }

  /** The action id is not part of the key. */
  function MakeKey(p: Payload, c: Context, lane: string): CacheKey {
    CacheKey((p.task.taskId, p.task.statement, p.task.imports, p.task.prefix, p.task.ns, p.task.allowedAxioms),
             p.state, p.action.tactic, OrElse(c.leanVersion, "unknown"), c.workdirFingerprint,
             OrElse(c.importMode, "preserve"), MaxHeartbeats(p), c.traceState, OrElse(lane, DEFAULT_CACHE_LANE))
  }

  datatype Flags = Flags(cacheHit: bool, cacheKey: Option<CacheKey>, other: string)
  datatype AuditPart = AuditPart(actionId: string, status: string, body: string, flags: Flags)
  datatype ResponsePart = ResponsePart(actionId: string, body: string, flags: Flags,
                                       cacheHit: bool, cacheKey: Option<CacheKey>)
  datatype AuditResult = AuditResult(audit: Option<AuditPart>, response: Option<ResponsePart>)

  function WithCacheFlags(r: AuditResult, key: CacheKey): AuditResult {
    AuditResult(
      if r.audit.Some?
      then Some(r.audit.value.(flags := r.audit.value.flags.(cacheHit := true, cacheKey := Some(key))))
      else None,
      if r.response.Some?
      then Some(r.response.value.(flags := r.response.value.flags.(cacheHit := true, cacheKey := Some(key)),
                                  cacheHit := true, cacheKey := Some(key)))
      else None)
  }

  predicate Flagged(r: AuditResult) { r.audit.Some? && r.audit.value.flags.cacheHit }

  /** A result without its cache flags and echoed action id. */
  function Outcome(r: AuditResult): AuditResult {
    AuditResult(
      if r.audit.Some?
      then Some(r.audit.value.(actionId := "", flags := r.audit.value.flags.(cacheHit := false, cacheKey := None)))
      else None,
      if r.response.Some?
      then Some(r.response.value.(actionId := "", flags := r.response.value.flags.(cacheHit := false, cacheKey := None),
                                  cacheHit := false, cacheKey := None))
      else None)
  }

  datatype QueueRow = QueueRow(run: string, lane: string, payload: Payload, status: Status, result: Option<AuditResult>)
  type QueueTable = map<string, QueueRow>
  datatype CacheRow = CacheRow(result: AuditResult, hitCount: nat)
  type CacheTable = map<CacheKey, CacheRow>

  function RowKey(row: QueueRow, c: Context): CacheKey { MakeKey(row.payload, c, row.lane) }

  predicate Waiting(row: QueueRow, run: string) { row.run == run && row.status == Queued }

  predicate Storable(row: QueueRow, run: string) {
    row.run == run && row.status == Succeeded && row.result.Some? && !Flagged(row.result.value)
  }

  // ----- Applying the cache -----

  predicate Hit(q: QueueTable, cache: CacheTable, run: string, c: Context, id: string) {
    id in q && Waiting(q[id], run) && RowKey(q[id], c) in cache
  }

  /** The queue after the hits of the given ids have been answered. */
  function Answered(q: QueueTable, cache: CacheTable, run: string, c: Context, ids: set<string>): (r: QueueTable)
    ensures r.Keys == q.Keys
  {
    map id | id in q ::
      if id in ids && Hit(q, cache, run, c, id)
      then q[id].(status := SucceededFromCache,
                  result := Some(WithCacheFlags(cache[RowKey(q[id], c)].result, RowKey(q[id], c))))
      else q[id]
  }

  /** The given ids that hit, and those among them that hit key k. */
  function Hits(q: QueueTable, cache: CacheTable, run: string, c: Context, ids: set<string>): (h: set<string>) {
    set id | id in ids && Hit(q, cache, run, c, id)
  }

  predicate HitOn(q: QueueTable, cache: CacheTable, run: string, c: Context, id: string, k: CacheKey) {
    Hit(q, cache, run, c, id) && RowKey(q[id], c) == k
  }

  function HitsOn(q: QueueTable, cache: CacheTable, run: string, c: Context, ids: set<string>, k: CacheKey):
      (h: set<string>)
  {
    set id | id in ids && HitOn(q, cache, run, c, id, k)
  }

  /** The cache after counting the hits of the given ids. */
  function Recounted(q: QueueTable, cache: CacheTable, run: string, c: Context, ids: set<string>): (r: CacheTable)
    ensures r.Keys == cache.Keys
  {
    map k | k in cache :: cache[k].(hitCount := cache[k].hitCount + |HitsOn(q, cache, run, c, ids, k)|)
  }

  function WaitingIds(q: QueueTable, run: string): set<string> { set id | id in q && Waiting(q[id], run) }

  // ----- What is promised -----

  /** The heartbeats of a payload: the action's, else the task's, else 200000. */
  predicate Heartbeats(p: Payload, n: int) {
    if p.action.maxHeartbeats.Some? then n == p.action.maxHeartbeats.value
    else if p.task.maxHeartbeats.Some? then n == p.task.maxHeartbeats.value
    else n == 200000
  }

  predicate SameText(s: string, t: string, default: string) {
    (if s == "" then default else s) == (if t == "" then default else t)
  }

  /** Two requests ask for the same audit: the task, the state, the tactic, the Lean version, the workdir's
      fingerprint, the import mode, the heartbeats, the trace flag and the lane agree. */
  ghost predicate SameRequest(p: Payload, c: Context, lane: string, p': Payload, c': Context, lane': string) {
    && p.task.taskId == p'.task.taskId && p.task.statement == p'.task.statement && p.task.imports == p'.task.imports
    && p.task.prefix == p'.task.prefix && p.task.ns == p'.task.ns && p.task.allowedAxioms == p'.task.allowedAxioms
    && p.state == p'.state && p.action.tactic == p'.action.tactic
    && SameText(c.leanVersion, c'.leanVersion, "unknown") && c.workdirFingerprint == c'.workdirFingerprint
    && SameText(c.importMode, c'.importMode, "preserve") && c.traceState == c'.traceState
    && SameText(lane, lane', "source_check") && (exists n :: Heartbeats(p, n) && Heartbeats(p', n))
  }

  /** Requests share a cache entry exactly when they ask for the same audit. */
  lemma KeyMeaning(p: Payload, c: Context, lane: string, p': Payload, c': Context, lane': string)
    ensures MakeKey(p, c, lane) == MakeKey(p', c', lane') <==> SameRequest(p, c, lane, p', c', lane')
  {
    assert Heartbeats(p, MaxHeartbeats(p)) && Heartbeats(p', MaxHeartbeats(p'));
  }

  /** The key of a request, field by field. */
  predicate KeyedFor(k: CacheKey, p: Payload, c: Context, lane: string) {
    && k.task.0 == p.task.taskId && k.task.1 == p.task.statement && k.task.2 == p.task.imports
    && k.task.3 == p.task.prefix && k.task.4 == p.task.ns && k.task.5 == p.task.allowedAxioms
    && k.state == p.state && k.tactic == p.action.tactic
    && k.leanVersion == (if c.leanVersion == "" then "unknown" else c.leanVersion)
    && k.workdirFingerprint == c.workdirFingerprint
    && k.importMode == (if c.importMode == "" then "preserve" else c.importMode)
    && Heartbeats(p, k.maxHeartbeats) && k.traceState == c.traceState
    && k.lane == (if lane == "" then "source_check" else lane)
  }

  lemma KeyIsKeyed(k: CacheKey, p: Payload, c: Context, lane: string)
    ensures KeyedFor(k, p, c, lane) <==> k == MakeKey(p, c, lane)
  {
  }

  /** A stored result as it is served: the cache flags are set, everything else is unchanged. */
  predicate ServedCopy(stored: AuditResult, key: CacheKey, r: AuditResult) {
    && (stored.audit.Some? <==> r.audit.Some?) && (stored.response.Some? <==> r.response.Some?)
    && (r.audit.Some? ==>
          var a, b := stored.audit.value, r.audit.value;
          && b.actionId == a.actionId && b.status == a.status && b.body == a.body && b.flags.other == a.flags.other
          && b.flags.cacheHit && b.flags.cacheKey == Some(key))
    && (r.response.Some? ==>
          var a, b := stored.response.value, r.response.value;
          && b.actionId == a.actionId && b.body == a.body && b.flags.other == a.flags.other
          && b.flags.cacheHit && b.flags.cacheKey == Some(key) && b.cacheHit && b.cacheKey == Some(key))
  }

  /** What applying the cache does to a row: a queued row of the run whose key is stored is answered from the
      stored result, any other row stays. */
  ghost predicate AppliedTo(rows: CacheTable, run: string, c: Context, row: QueueRow, out: QueueRow) {
    && (row.run == run && row.status == Queued && (exists k :: k in rows && KeyedFor(k, row.payload, c, row.lane)) ==>
          && out.run == row.run && out.lane == row.lane && out.payload == row.payload
          && out.status == SucceededFromCache && out.result.Some?
          && forall k :: k in rows && KeyedFor(k, row.payload, c, row.lane) ==>
               ServedCopy(rows[k].result, k, out.result.value))
    && (!(row.run == run && row.status == Queued && exists k :: k in rows && KeyedFor(k, row.payload, c, row.lane)) ==>
          out == row)
  }

  /** The queued rows of the run whose key is k. */
  function Asking(q: QueueTable, run: string, c: Context, k: CacheKey): set<string> {
    set id | id in q && q[id].run == run && q[id].status == Queued && KeyedFor(k, q[id].payload, c, q[id].lane)
  }

  /** Every row is as AppliedTo says, and each entry is counted once per row it answered. */
  ghost predicate Applied(q: QueueTable, before: CacheTable, run: string, c: Context, r: QueueTable, rows: CacheTable) {
    && r.Keys == q.Keys && (forall id :: id in q ==> AppliedTo(before, run, c, q[id], r[id]))
    && rows.Keys == before.Keys
    && forall k :: k in before ==>
         && rows[k].result == before[k].result
         && rows[k].hitCount == before[k].hitCount + |Asking(q, run, c, k)|
  }

  /** The row offers a result for k: a success of the run, with a result that did not come from the cache. */
  predicate OffersFor(row: QueueRow, run: string, c: Context, k: CacheKey) {
    && row.run == run && row.status == Succeeded && row.result.Some?
    && !(row.result.value.audit.Some? && row.result.value.audit.value.flags.cacheHit)
    && KeyedFor(k, row.payload, c, row.lane)
  }

  /** Row i of the order is the last to offer a result for k. */
  ghost predicate LastToOffer(q: QueueTable, run: string, c: Context, order: seq<string>, i: nat, k: CacheKey) {
    && i < |order| && order[i] in q && OffersFor(q[order[i]], run, c, k)
    && forall j :: i < j < |order| ==> !(order[j] in q && OffersFor(q[order[j]], run, c, k))
  }

  /** What storing leaves for one key: the last offered result, or the entry as it was when none is. */
  ghost predicate StoredFor(q: QueueTable, before: CacheTable, run: string, c: Context, order: seq<string>,
                            rows: CacheTable, k: CacheKey)
  {
    && (forall i: nat :: LastToOffer(q, run, c, order, i, k) ==>
          && order[i] in q && q[order[i]].result.Some? && k in rows
          && rows[k] == CacheRow(q[order[i]].result.value, if k in before then before[k].hitCount else 0))
    && ((forall i: nat :: !LastToOffer(q, run, c, order, i, k)) ==>
          (k in rows <==> k in before) && (k in rows ==> rows[k] == before[k]))
  }

  ghost predicate StoredAs(q: QueueTable, before: CacheTable, run: string, c: Context, order: seq<string>,
                           rows: CacheTable)
  {
    forall k :: StoredFor(q, before, run, c, order, rows, k)
  }

  lemma OffersMeaning(q: QueueTable, run: string, c: Context, id: string, k: CacheKey)
    ensures Offers(q, run, c, id, k) <==> id in q && OffersFor(q[id], run, c, k)
  {
    hide KeyedFor, MakeKey;
    if id in q {
      KeyIsKeyed(k, q[id].payload, c, q[id].lane);
    }
  }

  lemma StoredAtKey(q: QueueTable, before: CacheTable, run: string, c: Context, order: seq<string>, k: CacheKey)
    ensures StoredFor(q, before, run, c, order, Stored(q, before, run, c, order), k)
  {
    hide Stored, Offers, OffersFor;
    var rows := Stored(q, before, run, c, order);
    forall id: string ensures Offers(q, run, c, id, k) <==> id in q && OffersFor(q[id], run, c, k) {
      OffersMeaning(q, run, c, id, k);
    }
    forall i: nat | LastToOffer(q, run, c, order, i, k)
      ensures order[i] in q && q[order[i]].result.Some? && k in rows
      ensures rows[k] == CacheRow(q[order[i]].result.value, if k in before then before[k].hitCount else 0)
    {
      OffersHasResult(q[order[i]], run, c, k);
      LastOfferWins(q, before, run, c, order, i, k);
    }
    if Offered(q, run, c, order, k) {
      var i := HasLastOffer(q, run, c, order, k);
      assert LastToOffer(q, run, c, order, i, k);
    } else {
      NotOffered(q, before, run, c, order, k);
    }
  }

  lemma StoredMeaning(q: QueueTable, before: CacheTable, run: string, c: Context, order: seq<string>)
    ensures StoredAs(q, before, run, c, order, Stored(q, before, run, c, order))
  {
    hide Stored, StoredFor;
    forall k ensures StoredFor(q, before, run, c, order, Stored(q, before, run, c, order), k) {
      StoredAtKey(q, before, run, c, order, k);
    }
  }

  lemma OffersHasResult(row: QueueRow, run: string, c: Context, k: CacheKey)
    requires OffersFor(row, run, c, k)
    ensures row.result.Some?
  {
  }

  lemma CopyMeaning(r: AuditResult, key: CacheKey)
    ensures ServedCopy(r, key, WithCacheFlags(r, key))
  {
  }

  lemma AnsweredRow(q: QueueTable, cache: CacheTable, run: string, c: Context, id: string)
    requires id in q
    ensures AppliedTo(cache, run, c, q[id], Answered(q, cache, run, c, WaitingIds(q, run))[id])
  {
    hide MakeKey, KeyedFor, WithCacheFlags, ServedCopy;
    var key := RowKey(q[id], c);
    forall k: CacheKey ensures KeyedFor(k, q[id].payload, c, q[id].lane) <==> k == key {
      KeyIsKeyed(k, q[id].payload, c, q[id].lane);
    }
    if key in cache {
      CopyMeaning(cache[key].result, key);
    }
  }

  lemma AskingIsHits(q: QueueTable, cache: CacheTable, run: string, c: Context, k: CacheKey)
    requires k in cache
    ensures HitsOn(q, cache, run, c, WaitingIds(q, run), k) == Asking(q, run, c, k)
  {
    hide MakeKey, KeyedFor;
    forall id | id in q ensures KeyedFor(k, q[id].payload, c, q[id].lane) <==> k == RowKey(q[id], c) {
      KeyIsKeyed(k, q[id].payload, c, q[id].lane);
    }
  }

  lemma AppliedMeaning(q: QueueTable, cache: CacheTable, run: string, c: Context)
    ensures Applied(q, cache, run, c, Answered(q, cache, run, c, WaitingIds(q, run)),
                    Recounted(q, cache, run, c, WaitingIds(q, run)))
    ensures forall id :: id in q ==> AppliedTo(cache, run, c, q[id], Answered(q, cache, run, c, WaitingIds(q, run))[id])
  {
    hide AppliedTo, Asking, HitsOn, WaitingIds, RowKey, WithCacheFlags;
    forall id | id in q ensures AppliedTo(cache, run, c, q[id], Answered(q, cache, run, c, WaitingIds(q, run))[id]) {
      AnsweredRow(q, cache, run, c, id);
    }
    forall k | k in cache ensures HitsOn(q, cache, run, c, WaitingIds(q, run), k) == Asking(q, run, c, k) {
      AskingIsHits(q, cache, run, c, k);
    }
    hide Answered;
  }

  lemma CountsMeaning(q: QueueTable, cache: CacheTable, run: string, c: Context)
    ensures WaitingIds(q, run) == set id | id in q && q[id].run == run && q[id].status == Queued
    ensures Hits(q, cache, run, c, WaitingIds(q, run))
         == set id | id in q && q[id].run == run && q[id].status == Queued
                     && Answered(q, cache, run, c, WaitingIds(q, run))[id] != q[id]
  {
    hide RowKey, WithCacheFlags;
  }

  /** The stored successes among some rows. */
  function Successes(q: QueueTable, run: string, ids: seq<string>): set<string> {
    set id | id in ids && id in q && StoredSuccess(q[id], run)
  }

  lemma SuccessesStep(q: QueueTable, run: string, order: seq<string>, n: nat)
    requires n < |order| && Distinct(order) && order[n] in q
    ensures |Successes(q, run, order[..n + 1])|
         == |Successes(q, run, order[..n])| + if StoredSuccess(q[order[n]], run) then 1 else 0
  {
    hide StoredSuccess;
    assert order[..n + 1] == order[..n] + [order[n]];
    assert order[n] !in order[..n];
    assert Successes(q, run, order[..n + 1])
        == Successes(q, run, order[..n]) + if StoredSuccess(q[order[n]], run) then {order[n]} else {};
  }

  lemma SuccessesAll(q: QueueTable, run: string, order: seq<string>)
    requires Reads(order, SucceededIds(q, run))
    ensures Successes(q, run, order) == set id | id in q && StoredSuccess(q[id], run)
    ensures SucceededIds(q, run) ==
              set id | id in q && q[id].run == run && q[id].status == Succeeded && q[id].result.Some?
  {
  }

  /** A job of a later run is answered from a cache that one run has filled exactly when that run stored a
      success that asks for the same audit. */
  lemma SecondRunAnswers(q: QueueTable, run: string, c: Context, order: seq<string>, rows: CacheTable,
                         row: QueueRow, run': string, c': Context, out: QueueRow)
    requires StoredAs(q, map[], run, c, order, rows) && AppliedTo(rows, run', c', row, out)
    requires row.run == run' && row.status == Queued
    ensures out.status == SucceededFromCache <==>
      exists i :: 0 <= i < |order| && order[i] in q && StoredSuccess(q[order[i]], run)
                  && SameRequest(q[order[i]].payload, c, q[order[i]].lane, row.payload, c', row.lane)
  {
    hide KeyedFor, SameRequest, MakeKey, ServedCopy, StoredAs;
    var k := MakeKey(row.payload, c', row.lane);
    forall x: CacheKey ensures KeyedFor(x, row.payload, c', row.lane) <==> x == k {
      KeyIsKeyed(x, row.payload, c', row.lane);
    }
    forall i | 0 <= i < |order| && order[i] in q
      ensures OffersFor(q[order[i]], run, c, k) <==>
        && StoredSuccess(q[order[i]], run)
        && SameRequest(q[order[i]].payload, c, q[order[i]].lane, row.payload, c', row.lane)
    {
      var o := q[order[i]];
      KeyIsKeyed(k, o.payload, c, o.lane);
      KeyMeaning(o.payload, c, o.lane, row.payload, c', row.lane);
    }
    hide OffersFor, StoredSuccess;
    StoredIff(q, run, c, order, rows, k);
  }

  /** A success of the run whose result did not come from the cache. */
  predicate StoredSuccess(row: QueueRow, run: string) {
    && row.run == run && row.status == Succeeded && row.result.Some?
    && !(row.result.value.audit.Some? && row.result.value.audit.value.flags.cacheHit)
  }

  lemma StoredIff(q: QueueTable, run: string, c: Context, order: seq<string>, rows: CacheTable, k: CacheKey)
    requires StoredAs(q, map[], run, c, order, rows)
    ensures k in rows <==> exists i :: 0 <= i < |order| && order[i] in q && OffersFor(q[order[i]], run, c, k)
  {
    hide OffersFor;
    assert StoredFor(q, map[], run, c, order, rows, k);
    if i :| 0 <= i < |order| && order[i] in q && OffersFor(q[order[i]], run, c, k) {
      var last := LastAmong(q, run, c, order, i, k, |order|);
    } else {
      forall i: nat ensures !LastToOffer(q, run, c, order, i, k) {
      }
    }
  }

  lemma {:induction false} LastAmong(q: QueueTable, run: string, c: Context, order: seq<string>, i: nat, k: CacheKey,
                                     n: nat)
    returns (last: nat)
    requires i < n <= |order| && order[i] in q && OffersFor(q[order[i]], run, c, k)
    requires forall j :: n <= j < |order| ==> !(order[j] in q && OffersFor(q[order[j]], run, c, k))
    ensures LastToOffer(q, run, c, order, last, k)
  {
    hide OffersFor;
    if order[n - 1] in q && OffersFor(q[order[n - 1]], run, c, k) {
      last := n - 1;
    } else {
      last := LastAmong(q, run, c, order, i, k, n - 1);
    }
  }

  class Cache {
    var rows: CacheTable

    constructor ()
      ensures rows == map[]
    {
      rows := map[];
    }

    /** A read-only cache that is missing or has no table answers nothing. */
    method ApplyToQueue(q: QueueTable, run: string, c: Context, readonly: bool, readable: bool)
      returns (r: QueueTable, lookups: nat, hits: nat, misses: nat)
      modifies this
      ensures lookups == |WaitingIds(q, run)| && hits + misses == lookups
      ensures readonly && !readable ==> r == q && hits == 0
      ensures !(readonly && !readable) ==>
                && r == Answered(q, old(rows), run, c, WaitingIds(q, run))
                && hits == |Hits(q, old(rows), run, c, WaitingIds(q, run))|
      ensures rows == if readonly then old(rows) else Recounted(q, old(rows), run, c, WaitingIds(q, run))
      ensures !readonly ==> Applied(q, old(rows), run, c, r, rows)
      ensures readonly && readable ==>
        r.Keys == q.Keys && forall id :: id in q ==> AppliedTo(rows, run, c, q[id], r[id])
      ensures lookups == |set id | id in q && q[id].run == run && q[id].status == Queued|
      ensures hits == |set id | id in q && q[id].run == run && q[id].status == Queued && r[id] != q[id]|
    {
      hide Applied, AppliedTo, Answered, Recounted, Hits, WaitingIds;
      AppliedMeaning(q, rows, run, c);
      CountsMeaning(q, rows, run, c);
      lookups := |WaitingIds(q, run)|;
      if readonly && !readable { return q, lookups, 0, lookups; }
      r, hits, misses := AnswerWaiting(q, run, c, readonly);
    }

    method AnswerWaiting(q: QueueTable, run: string, c: Context, readonly: bool)
      returns (r: QueueTable, hits: nat, misses: nat)
      modifies this
      ensures hits + misses == |WaitingIds(q, run)|
      ensures Applying(q, old(rows), run, c, readonly, WaitingIds(q, run), r, rows, hits)
    {
      hide Applying, Answered, Recounted, Hits, RowKey, WithCacheFlags, WaitingIds;
      var todo := WaitingIds(q, run);
      r, hits, misses := q, 0, 0;
      ghost var seen: set<string> := {};
      ApplyingStart(q, rows, run, c, readonly);
      while todo != {}
        invariant seen !! todo && seen + todo == WaitingIds(q, run)
        invariant Applying(q, old(rows), run, c, readonly, seen, r, rows, hits)
        invariant hits + misses == |seen|
        decreases todo
      {
        var id :| id in todo;
        WaitingIdsRow(q, run, id);
        todo := todo - {id};
        var key := RowKey(q[id], c);
        ApplyingStep(q, old(rows), run, c, readonly, seen, r, rows, hits, id);
        seen := seen + {id};
        if key in rows {
          r := r[id := r[id].(status := SucceededFromCache, result := Some(WithCacheFlags(rows[key].result, key)))];
          rows := if readonly then rows else rows[key := rows[key].(hitCount := rows[key].hitCount + 1)];
          hits := hits + 1;
        } else {
          misses := misses + 1;
        }
      }
      assert seen == WaitingIds(q, run);
    }

    /** Stores the results of one run, in the order its succeeded rows are read; a read-only cache stores
        nothing. */
    method StoreResults(q: QueueTable, run: string, c: Context, readonly: bool, order: seq<string>)
      returns (candidates: nat, stored: nat, skipped: nat)
      requires Reads(order, SucceededIds(q, run))
      modifies this
      ensures stored + skipped == candidates
      ensures candidates == if readonly then 0
        else |set id | id in q && q[id].run == run && q[id].status == Succeeded && q[id].result.Some?|
      ensures rows == if readonly then old(rows) else Stored(q, old(rows), run, c, order)
      ensures !readonly ==> StoredAs(q, old(rows), run, c, order, rows)
      ensures stored == if readonly then 0 else |set id | id in q && StoredSuccess(q[id], run)|
    {
      hide RowKey, Stored, SucceededIds, StoredAs;
      StoredMeaning(q, rows, run, c, order);
      SuccessesAll(q, run, order);
      candidates, stored, skipped := 0, 0, 0;
      if readonly { return; }
      candidates := |order|;
      ReadsSize(order, SucceededIds(q, run));
      StoredNone(q, rows, run, c);
      for n := 0 to |order|
        invariant rows == Stored(q, old(rows), run, c, order[..n]) && stored + skipped == n
        invariant stored == |Successes(q, run, order[..n])|
      {
        var id := order[n];
        SucceededIdsRow(q, run, id);
        StoredStep(q, old(rows), run, c, order[..n], id);
        SuccessesStep(q, run, order, n);
        assert order[..n + 1] == order[..n] + [id];
        if Flagged(q[id].result.value) {
          skipped := skipped + 1;
        } else {
          var key := RowKey(q[id], c);
          rows := rows[key := CacheRow(q[id].result.value, if key in rows then rows[key].hitCount else 0)];
          stored := stored + 1;
        }
      }
      assert order[..|order|] == order;
    }
  }

  // ----- Storing results -----

  function SucceededIds(q: QueueTable, run: string): set<string> {
    set id | id in q && q[id].run == run && q[id].status == Succeeded && q[id].result.Some?
  }

  lemma SucceededIdsRow(q: QueueTable, run: string, id: string)
    requires id in SucceededIds(q, run)
    ensures id in q && q[id].result.Some? && q[id].run == run && q[id].status == Succeeded
  {
  }

  /** The rows with these ids, each once, in some order. */
  ghost predicate Reads(order: seq<string>, ids: set<string>) {
    (forall id :: id in order <==> id in ids) && Distinct(order)
  }

  lemma {:induction false} ReadsSize(order: seq<string>, ids: set<string>)
    requires Reads(order, ids)
    ensures |order| == |ids|
  {
    if order == [] {
      assert ids == {};
    } else {
      var before, id := order[..|order| - 1], order[|order| - 1];
      assert order == before + [id];
      ReadsSize(before, ids - {id});
    }
  }

  /** Row id offers its result for key k. */
  predicate Offers(q: QueueTable, run: string, c: Context, id: string, k: CacheKey) {
    id in q && Storable(q[id], run) && RowKey(q[id], c) == k
  }

  /** The cache after the rows have been offered one after another. */
  function Stored(q: QueueTable, before: CacheTable, run: string, c: Context, order: seq<string>): CacheTable {
    if order == [] then before
    else
      var rows, id := Stored(q, before, run, c, order[..|order| - 1]), order[|order| - 1];
      if id in q && Storable(q[id], run) then
        var k := RowKey(q[id], c);
        rows[k := CacheRow(q[id].result.value, if k in rows then rows[k].hitCount else 0)]
      else rows
  }

  lemma StoredNone(q: QueueTable, before: CacheTable, run: string, c: Context)
    ensures Stored(q, before, run, c, []) == before
  {
  }

  lemma StoredStep(q: QueueTable, before: CacheTable, run: string, c: Context, order: seq<string>, id: string)
    ensures var rows, next := Stored(q, before, run, c, order), Stored(q, before, run, c, order + [id]);
      if id in q && Storable(q[id], run) then
        var k := RowKey(q[id], c);
        next == rows[k := CacheRow(q[id].result.value, if k in rows then rows[k].hitCount else 0)]
      else next == rows
  {
    hide RowKey;
    assert (order + [id])[..|order|] == order;
  }

  ghost predicate Offered(q: QueueTable, run: string, c: Context, order: seq<string>, k: CacheKey) {
    exists i :: 0 <= i < |order| && Offers(q, run, c, order[i], k)
  }

  /** Row i of the order is the last that offers a result for k. */
  ghost predicate LastOffer(q: QueueTable, run: string, c: Context, order: seq<string>, i: nat, k: CacheKey) {
    i < |order| && Offers(q, run, c, order[i], k) && forall j :: i < j < |order| ==> !Offers(q, run, c, order[j], k)
  }

  lemma {:induction false} HasLastOffer(q: QueueTable, run: string, c: Context, order: seq<string>, k: CacheKey)
    returns (i: nat)
    requires Offered(q, run, c, order, k)
    ensures LastOffer(q, run, c, order, i, k)
  {
    hide Offers;
    var n := |order| - 1;
    if Offers(q, run, c, order[n], k) {
      i := n;
    } else {
      var x :| 0 <= x < |order| && Offers(q, run, c, order[x], k);
      assert order[..n][x] == order[x];
      i := HasLastOffer(q, run, c, order[..n], k);
      assert order[..n][i] == order[i];
      forall j | i < j < |order| ensures !Offers(q, run, c, order[j], k) {
        assert j < n ==> order[..n][j] == order[j];
      }
    }
  }

  lemma {:induction false} NotOffered(q: QueueTable, before: CacheTable, run: string, c: Context, order: seq<string>,
                                      k: CacheKey)
    requires !Offered(q, run, c, order, k)
    ensures var rows := Stored(q, before, run, c, order);
      (k in rows <==> k in before) && (k in rows ==> rows[k] == before[k])
  {
    hide RowKey;
    if order == [] {
    } else {
      var n := |order| - 1;
      forall i | 0 <= i < n ensures !Offers(q, run, c, order[..n][i], k) {
        assert order[..n][i] == order[i];
      }
      NotOffered(q, before, run, c, order[..n], k);
    }
  }

  /** Storing keeps the last result offered for a key; the hit count survives. */
  lemma {:induction false} LastOfferWins(q: QueueTable, before: CacheTable, run: string, c: Context, order: seq<string>,
                                         i: nat, k: CacheKey)
    requires LastOffer(q, run, c, order, i, k)
    ensures var rows := Stored(q, before, run, c, order);
      k in rows && rows[k] == CacheRow(q[order[i]].result.value, if k in before then before[k].hitCount else 0)
  {
    hide RowKey;
    var n := |order| - 1;
    if i == n {
      HitsSurvive(q, before, run, c, order[..n], k);
    } else {
      assert order[..n][i] == order[i];
      forall j | i < j < n ensures !Offers(q, run, c, order[..n][j], k) {
        assert order[..n][j] == order[j];
      }
      LastOfferWins(q, before, run, c, order[..n], i, k);
    }
  }

  lemma {:induction false} HitsSurvive(q: QueueTable, before: CacheTable, run: string, c: Context,
                                       order: seq<string>, k: CacheKey)
    ensures var rows := Stored(q, before, run, c, order);
      (if k in rows then rows[k].hitCount else 0) == if k in before then before[k].hitCount else 0
  {
    hide RowKey;
    if order == [] {
    } else {
      HitsSurvive(q, before, run, c, order[..|order| - 1], k);
    }
  }

  // ----- Applying hits -----

  /** The loop state after the ids in seen. */
  ghost predicate Applying(q: QueueTable, cache: CacheTable, run: string, c: Context, readonly: bool,
                           seen: set<string>, r: QueueTable, rows: CacheTable, hits: nat)
  {
    && r == Answered(q, cache, run, c, seen)
    && rows == (if readonly then cache else Recounted(q, cache, run, c, seen))
    && hits == |Hits(q, cache, run, c, seen)|
  }

  lemma WaitingIdsRow(q: QueueTable, run: string, id: string)
    requires id in WaitingIds(q, run)
    ensures id in q && Waiting(q[id], run)
  {
  }

  lemma ApplyingStart(q: QueueTable, cache: CacheTable, run: string, c: Context, readonly: bool)
    ensures Applying(q, cache, run, c, readonly, {}, q, cache, 0)
  {
    assert Hits(q, cache, run, c, {}) == {};
    forall k | k in cache ensures HitsOn(q, cache, run, c, {}, k) == {} { }
    assert Recounted(q, cache, run, c, {}) == cache;
  }

  lemma HitsOnGrow(q: QueueTable, cache: CacheTable, run: string, c: Context, seen: set<string>, id: string,
                   k: CacheKey)
    requires id !in seen
    ensures |HitsOn(q, cache, run, c, seen + {id}, k)|
            == |HitsOn(q, cache, run, c, seen, k)| + (if HitOn(q, cache, run, c, id, k) then 1 else 0)
  {
    hide HitOn;
    assert HitsOn(q, cache, run, c, seen + {id}, k)
        == HitsOn(q, cache, run, c, seen, k) + (if HitOn(q, cache, run, c, id, k) then {id} else {});
  }

  lemma HitsGrow(q: QueueTable, cache: CacheTable, run: string, c: Context, seen: set<string>, id: string)
    requires id !in seen
    ensures |Hits(q, cache, run, c, seen + {id})|
            == |Hits(q, cache, run, c, seen)| + (if Hit(q, cache, run, c, id) then 1 else 0)
  {
    hide Hit;
    assert Hits(q, cache, run, c, seen + {id})
        == Hits(q, cache, run, c, seen) + (if Hit(q, cache, run, c, id) then {id} else {});
  }

  lemma AnsweredGrow(q: QueueTable, cache: CacheTable, run: string, c: Context, seen: set<string>, id: string)
    requires id in q
    ensures Answered(q, cache, run, c, seen + {id})
            == if Hit(q, cache, run, c, id)
               then Answered(q, cache, run, c, seen)[id :=
                      q[id].(status := SucceededFromCache,
                             result := Some(WithCacheFlags(cache[RowKey(q[id], c)].result, RowKey(q[id], c))))]
               else Answered(q, cache, run, c, seen)
  {
    hide RowKey, WithCacheFlags;
  }

  lemma RecountedGrow(q: QueueTable, cache: CacheTable, run: string, c: Context, seen: set<string>, id: string)
    requires id !in seen && id in q && Waiting(q[id], run)
    ensures var key, before := RowKey(q[id], c), Recounted(q, cache, run, c, seen);
            Recounted(q, cache, run, c, seen + {id})
            == if key in cache then before[key := before[key].(hitCount := before[key].hitCount + 1)] else before
  {
    hide RowKey, HitsOn;
    forall k | k in cache ensures Recounted(q, cache, run, c, seen + {id})[k].hitCount
        == Recounted(q, cache, run, c, seen)[k].hitCount + (if HitOn(q, cache, run, c, id, k) then 1 else 0)
    {
      HitsOnGrow(q, cache, run, c, seen, id, k);
    }
  }

  lemma ApplyingStep(q: QueueTable, cache: CacheTable, run: string, c: Context, readonly: bool,
                     seen: set<string>, r: QueueTable, rows: CacheTable, hits: nat, id: string)
    requires Applying(q, cache, run, c, readonly, seen, r, rows, hits)
    requires id !in seen && id in q && Waiting(q[id], run)
    ensures var key := RowKey(q[id], c);
            && r.Keys == q.Keys && r[id] == q[id] && rows.Keys == cache.Keys
            && if key in rows
               then Applying(q, cache, run, c, readonly, seen + {id},
                      r[id := r[id].(status := SucceededFromCache,
                                     result := Some(WithCacheFlags(rows[key].result, key)))],
                      if readonly then rows else rows[key := rows[key].(hitCount := rows[key].hitCount + 1)], hits + 1)
               else Applying(q, cache, run, c, readonly, seen + {id}, r, rows, hits)
  {
    hide RowKey, WithCacheFlags, HitsOn, Hits;
    assert RowKey(q[id], c) in rows ==> rows[RowKey(q[id], c)].result == cache[RowKey(q[id], c)].result;
    HitsGrow(q, cache, run, c, seen, id);
    AnsweredGrow(q, cache, run, c, seen, id);
    RecountedGrow(q, cache, run, c, seen, id);
    hide Answered, Recounted;
  }

  // ----- Transparency -----

  datatype Verdict = Verdict(status: Status, result: AuditResult)

  /** The auditor as a deterministic function of everything it is given, action id included. */
  type Auditor = (Payload, Context, string) -> Verdict

  predicate AnyFlag(r: AuditResult) {
    Flagged(r) || (r.response.Some? && (r.response.value.cacheHit || r.response.value.flags.cacheHit))
  }

  ghost predicate Clean(a: Auditor) {
    forall p, c, lane {:trigger a(p, c, lane)} ::
      a(p, c, lane).status in {Succeeded, Failed, TimedOut, Quarantined} && !AnyFlag(a(p, c, lane).result)
  }

  /** Requests with equal keys get equal outcomes, as far as success is concerned. */
  ghost predicate SuccessDetermined(a: Auditor) {
    forall p, c, lane, p', c', lane' {:trigger MakeKey(p, c, lane), MakeKey(p', c', lane')} ::
      MakeKey(p, c, lane) == MakeKey(p', c', lane') && a(p, c, lane).status == Succeeded ==>
        a(p', c', lane').status == Succeeded && Outcome(a(p', c', lane').result) == Outcome(a(p, c, lane).result)
  }

  /** Every waiting row of the run is audited. */
  function Drained(q: QueueTable, run: string, c: Context, a: Auditor): (r: QueueTable)
    ensures r.Keys == q.Keys
  {
    map id | id in q ::
      if Waiting(q[id], run)
      then var v := a(q[id].payload, c, q[id].lane); q[id].(status := v.status, result := Some(v.result))
      else q[id]
  }

  /** One run: its jobs, the settings they are audited under, and how the cache may be used. */
  datatype RunSpec = RunSpec(run: string, context: Context, jobs: map<string, (Payload, string)>,
                             readonly: bool, readable: bool)

  function StartQueue(s: RunSpec): (q: QueueTable)
    ensures q.Keys == s.jobs.Keys
  {
    map id | id in s.jobs :: QueueRow(s.run, s.jobs[id].1, s.jobs[id].0, Queued, None)
  }

  function Consulted(cache: CacheTable, s: RunSpec): QueueTable {
    if s.readonly && !s.readable then StartQueue(s)
    else Answered(StartQueue(s), cache, s.run, s.context, WaitingIds(StartQueue(s), s.run))
  }

  /** The final queue of a run that consults the cache first. */
  function CachedRun(cache: CacheTable, s: RunSpec, a: Auditor): QueueTable {
    Drained(Consulted(cache, s), s.run, s.context, a)
  }

  function UncachedRun(s: RunSpec, a: Auditor): QueueTable {
    Drained(StartQueue(s), s.run, s.context, a)
  }

  /** Possible caches after the run has applied and then stored. */
  ghost predicate CacheAfter(cache: CacheTable, s: RunSpec, a: Auditor, next: CacheTable) {
    if s.readonly then next == cache
    else
      var recounted := Recounted(StartQueue(s), cache, s.run, s.context, WaitingIds(StartQueue(s), s.run));
      var q := CachedRun(cache, s, a);
      exists order :: Reads(order, SucceededIds(q, s.run)) && next == Stored(q, recounted, s.run, s.context, order)
  }

  function StatusName(s: Status): Status { if s == SucceededFromCache then Succeeded else s }

  /** Equal results row by row, up to the status name, the cache flags and the echoed action id. */
  ghost predicate SameOutcomes(q: QueueTable, r: QueueTable) {
    && q.Keys == r.Keys
    && forall id :: id in q ==>
         && StatusName(q[id].status) == StatusName(r[id].status)
         && q[id].result.Some? && r[id].result.Some?
         && Outcome(q[id].result.value) == Outcome(r[id].result.value)
  }

  /** A cached result is an unflagged copy of what the auditor says for some request with that key. */
  ghost predicate Vouched(a: Auditor, k: CacheKey, r: AuditResult) {
    && !AnyFlag(r)
    && exists p, c, lane :: MakeKey(p, c, lane) == k && a(p, c, lane).status == Succeeded
                            && Outcome(a(p, c, lane).result) == Outcome(r)
  }

  ghost predicate CacheSound(cache: CacheTable, a: Auditor) {
    forall k :: k in cache ==> Vouched(a, k, cache[k].result)
  }

  lemma FlagsAreStripped(r: AuditResult, key: CacheKey)
    ensures Outcome(WithCacheFlags(r, key)) == Outcome(r)
    ensures r.audit.Some? ==> Flagged(WithCacheFlags(r, key))
  {
  }

  lemma VouchedIsAuditors(a: Auditor, k: CacheKey, r: AuditResult, p: Payload, c: Context, lane: string)
    requires SuccessDetermined(a) && Vouched(a, k, r) && MakeKey(p, c, lane) == k
    ensures a(p, c, lane).status == Succeeded && Outcome(a(p, c, lane).result) == Outcome(r)
  {
    hide MakeKey, Outcome;
    var p', c', lane' :| MakeKey(p', c', lane') == k && a(p', c', lane').status == Succeeded
                         && Outcome(a(p', c', lane').result) == Outcome(r);
  }

  lemma RowTransparent(cache: CacheTable, s: RunSpec, a: Auditor, id: string)
    requires CacheSound(cache, a) && SuccessDetermined(a) && Clean(a) && id in s.jobs
    ensures id in CachedRun(cache, s, a) && id in UncachedRun(s, a)
    ensures var x, y := CachedRun(cache, s, a)[id], UncachedRun(s, a)[id];
            && StatusName(x.status) == StatusName(y.status) && x.result.Some? && y.result.Some?
            && Outcome(x.result.value) == Outcome(y.result.value)
  {
    hide MakeKey, Outcome, WithCacheFlags, SuccessDetermined;
    var q := StartQueue(s);
    if id in Consulted(cache, s) && !Waiting(Consulted(cache, s)[id], s.run) {
      var key := RowKey(q[id], s.context);
      FlagsAreStripped(cache[key].result, key);
      VouchedIsAuditors(a, key, cache[key].result, q[id].payload, s.context, q[id].lane);
    }
  }

  /** A run answers a job from the cache exactly when it may use the cache and an entry is kept for its request. */
  lemma RunConsults(cache: CacheTable, s: RunSpec, a: Auditor, id: string)
    requires Clean(a) && id in s.jobs
    ensures id in CachedRun(cache, s, a)
    ensures CachedRun(cache, s, a)[id].status == SucceededFromCache <==>
      && (s.readable || !s.readonly)
      && exists k: CacheKey :: k in cache && KeyedFor(k, s.jobs[id].0, s.context, s.jobs[id].1)
  {
    hide MakeKey, KeyedFor, WithCacheFlags;
    forall k: CacheKey
      ensures KeyedFor(k, s.jobs[id].0, s.context, s.jobs[id].1) <==>
        k == MakeKey(s.jobs[id].0, s.context, s.jobs[id].1)
    {
      KeyIsKeyed(k, s.jobs[id].0, s.context, s.jobs[id].1);
    }
  }

  /** One run over a sound cache gives every job the outcome it would have had without the cache. */
  lemma RunTransparent(cache: CacheTable, s: RunSpec, a: Auditor)
    requires CacheSound(cache, a) && SuccessDetermined(a) && Clean(a)
    ensures SameOutcomes(CachedRun(cache, s, a), UncachedRun(s, a))
  {
    hide CacheSound, SuccessDetermined, Clean, Outcome;
    forall id | id in s.jobs { RowTransparent(cache, s, a, id); }
    RunKeys(cache, s, a);
  }

  lemma RunKeys(cache: CacheTable, s: RunSpec, a: Auditor)
    ensures CachedRun(cache, s, a).Keys == UncachedRun(s, a).Keys == s.jobs.Keys
  {
  }

  /** A row a run leaves as succeeded was audited in that run. */
  lemma SucceededWasAudited(cache: CacheTable, s: RunSpec, a: Auditor, id: string)
    requires Clean(a) && id in CachedRun(cache, s, a) && CachedRun(cache, s, a)[id].status == Succeeded
    ensures var row := CachedRun(cache, s, a)[id];
            row.result == Some(a(row.payload, s.context, row.lane).result)
            && a(row.payload, s.context, row.lane).status == Succeeded
  {
    hide MakeKey, WithCacheFlags;
  }

  lemma AuditedIsVouched(a: Auditor, p: Payload, c: Context, lane: string)
    requires Clean(a) && a(p, c, lane).status == Succeeded
    ensures Vouched(a, MakeKey(p, c, lane), a(p, c, lane).result)
  {
    hide MakeKey, Outcome;
  }

  /** Runs keep the cache sound; in particular no stored result ever carries a cache flag. */
  lemma RunKeepsSound(cache: CacheTable, s: RunSpec, a: Auditor, next: CacheTable)
    requires CacheSound(cache, a) && Clean(a) && CacheAfter(cache, s, a, next)
    ensures CacheSound(next, a)
  {
    if !s.readonly {
      hide MakeKey, Clean, Vouched, CachedRun, Drained, Answered, Stored;
      var q := CachedRun(cache, s, a);
      var recounted := Recounted(StartQueue(s), cache, s.run, s.context, WaitingIds(StartQueue(s), s.run));
      var order :| Reads(order, SucceededIds(q, s.run)) && next == Stored(q, recounted, s.run, s.context, order);
      forall k | k in next ensures Vouched(a, k, next[k].result) {
        if Offered(q, s.run, s.context, order, k) {
          var i := HasLastOffer(q, s.run, s.context, order, k);
          LastOfferWins(q, recounted, s.run, s.context, order, i, k);
          SucceededWasAudited(cache, s, a, order[i]);
          AuditedIsVouched(a, q[order[i]].payload, s.context, q[order[i]].lane);
        } else {
          NotOffered(q, recounted, s.run, s.context, order, k);
          assert next[k].result == cache[k].result;
        }
      }
    }
  }

  /** A sequence of runs sharing one cache, empty at first. */
  ghost predicate Session(specs: seq<RunSpec>, caches: seq<CacheTable>, a: Auditor) {
    && |caches| == |specs| + 1 && caches[0] == map[]
    && forall i :: 0 <= i < |specs| ==> CacheAfter(caches[i], specs[i], a, caches[i + 1])
  }

  lemma {:induction false} SessionSound(specs: seq<RunSpec>, caches: seq<CacheTable>, a: Auditor, n: nat)
    requires Clean(a) && Session(specs, caches, a) && n < |caches|
    ensures CacheSound(caches[n], a)
  {
    if n == 0 {
    } else {
      hide Clean, CacheAfter, CacheSound;
      SessionSound(specs, caches, a, n - 1);
      RunKeepsSound(caches[n - 1], specs[n - 1], a, caches[n]);
    }
  }

  /** Every run of every session gives each job its uncached outcome. */
  ghost predicate Transparent(a: Auditor) {
    forall specs, caches, n {:trigger Session(specs, caches, a), CachedRun(caches[n], specs[n], a)} ::
      Session(specs, caches, a) && 0 <= n < |specs| ==>
        SameOutcomes(CachedRun(caches[n], specs[n], a), UncachedRun(specs[n], a))
  }

  function OneJob(p: Payload, c: Context, lane: string, readonly: bool): RunSpec {
    RunSpec("r", c, map["job" := (p, lane)], readonly, true)
  }

  lemma FirstRunStores(a: Auditor, p: Payload, c: Context, lane: string)
    requires Clean(a) && a(p, c, lane).status == Succeeded
    ensures CacheAfter(map[], OneJob(p, c, lane, false), a,
                       map[MakeKey(p, c, lane) := CacheRow(a(p, c, lane).result, 0)])
  {
    hide MakeKey;
    var s, k := OneJob(p, c, lane, false), MakeKey(p, c, lane);
    var q, next := CachedRun(map[], s, a), map[k := CacheRow(a(p, c, lane).result, 0)];
    var row := QueueRow("r", lane, p, Succeeded, Some(a(p, c, lane).result));
    assert q == map["job" := row];
    assert Offers(q, "r", c, "job", k) && SucceededIds(q, "r") == {"job"};
    assert Reads(["job"], SucceededIds(q, "r"));
    StoredNone(q, map[], "r", c);
    StoredStep(q, map[], "r", c, [], "job");
    assert [] + ["job"] == ["job"];
    assert Stored(q, map[], "r", c, ["job"]) == next;
    assert Recounted(StartQueue(s), map[], s.run, s.context, WaitingIds(StartQueue(s), s.run)) == map[];
  }

  lemma SecondRunServes(a: Auditor, r: AuditResult, p: Payload, c: Context, lane: string)
    requires SameOutcomes(CachedRun(map[MakeKey(p, c, lane) := CacheRow(r, 0)], OneJob(p, c, lane, true), a),
                          UncachedRun(OneJob(p, c, lane, true), a))
    requires a(p, c, lane).status != SucceededFromCache
    ensures a(p, c, lane).status == Succeeded && Outcome(a(p, c, lane).result) == Outcome(r)
  {
    hide MakeKey, Outcome;
    var s, k := OneJob(p, c, lane, true), MakeKey(p, c, lane);
    var cache := map[k := CacheRow(r, 0)];
    assert "job" in StartQueue(s) && Hit(StartQueue(s), cache, "r", c, "job");
    assert "job" in WaitingIds(StartQueue(s), "r");
    assert CachedRun(cache, s, a)["job"].result == Some(WithCacheFlags(r, k));
    FlagsAreStripped(r, k);
  }

  /** The cache is transparent for every session exactly when the auditor's successes depend on
      nothing outside the key. */
  lemma TransparentIff(a: Auditor)
    requires Clean(a)
    ensures Transparent(a) <==> SuccessDetermined(a)
  {
    if SuccessDetermined(a) {
      forall specs, caches, n: nat | Session(specs, caches, a) && n < |specs|
        ensures SameOutcomes(CachedRun(caches[n], specs[n], a), UncachedRun(specs[n], a))
      {
        SessionSound(specs, caches, a, n);
        RunTransparent(caches[n], specs[n], a);
      }
    }
    if Transparent(a) {
      hide MakeKey, Outcome, CachedRun, UncachedRun, SameOutcomes, CacheAfter, Clean;
      forall p, c, lane, p', c', lane'
        | MakeKey(p, c, lane) == MakeKey(p', c', lane') && a(p, c, lane).status == Succeeded
        ensures a(p', c', lane').status == Succeeded
             && Outcome(a(p', c', lane').result) == Outcome(a(p, c, lane).result)
      {
        TransparentForces(a, p, c, lane, p', c', lane');
      }
    }
  }

  lemma ReadonlyKeeps(cache: CacheTable, p: Payload, c: Context, lane: string, a: Auditor)
    ensures CacheAfter(cache, OneJob(p, c, lane, true), a, cache)
  {
  }

  lemma CleanStatus(a: Auditor, p: Payload, c: Context, lane: string)
    requires Clean(a)
    ensures a(p, c, lane).status != SucceededFromCache
  {
  }

  lemma TransparentForces(a: Auditor, p: Payload, c: Context, lane: string, p': Payload, c': Context, lane': string)
    requires Clean(a) && Transparent(a)
    requires MakeKey(p, c, lane) == MakeKey(p', c', lane') && a(p, c, lane).status == Succeeded
    ensures a(p', c', lane').status == Succeeded && Outcome(a(p', c', lane').result) == Outcome(a(p, c, lane).result)
  {
    hide MakeKey, Outcome, CachedRun, UncachedRun, SameOutcomes, CacheAfter, Clean, OneJob;
    var s, s' := OneJob(p, c, lane, false), OneJob(p', c', lane', true);
    var cache := map[MakeKey(p, c, lane) := CacheRow(a(p, c, lane).result, 0)];
    var specs, caches := [s, s'], [map[], cache, cache];
    FirstRunStores(a, p, c, lane);
    ReadonlyKeeps(cache, p', c', lane', a);
    assert Session(specs, caches, a);
    assert SameOutcomes(CachedRun(caches[1], specs[1], a), UncachedRun(specs[1], a));
    CleanStatus(a, p', c', lane');
    SecondRunServes(a, a(p, c, lane).result, p', c', lane');
  }
}
