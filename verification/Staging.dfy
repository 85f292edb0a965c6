/** The staged audit of lean_rgc/audit_staging.py: actions ranked by predicted score are audited in
    growing stages under a job budget, until no unaudited action can beat the best realized score. */
module Staging {
  import opened Options
  import Sorting

  datatype Entry = Entry(id: string, score: real)

  /** A response row: the action it answers and its audited score. */
  datatype Response = Response(id: string, score: real)

  // ----- Ranking -----

  /** Higher predicted score first, then the smaller identifier. */
  predicate Precedes(a: Entry, b: Entry) {
    a.score > b.score || (a.score == b.score && Sorting.LexLe(a.id, b.id))
  }

  function Rank(rows: seq<Entry>): seq<Entry> { Sorting.Sort(rows, Precedes) }

  lemma PrecedesIsOrder()
    ensures Sorting.TotalPreorder(Precedes) && Sorting.Antisymmetric(Precedes)
  {
    forall a, b | Precedes(a, b) && Precedes(b, a) ensures a == b {
      Sorting.LexTotal(a.id, b.id);
    }
    forall a, b ensures Precedes(a, b) || Precedes(b, a) {
      Sorting.LexTotal(a.id, b.id);
    }
    forall a, b, c | Precedes(a, b) && Precedes(b, c) ensures Precedes(a, c) {
      if a.score == b.score == c.score {
        Sorting.LexTransitive(a.id, b.id, c.id);
      }
    }
  }

  ghost predicate Descending(ranked: seq<Entry>) {
    forall i, j :: 0 <= i < j < |ranked| ==> ranked[i].score >= ranked[j].score
  }

  lemma RankIsDescending(rows: seq<Entry>)
    ensures Descending(Rank(rows)) && multiset(Rank(rows)) == multiset(rows)
  {
    PrecedesIsOrder();
    Sorting.SortIsSorted(rows, Precedes);
    var r := Rank(rows);
    forall i, j | 0 <= i < j < |r| ensures r[i].score >= r[j].score {
      assert Precedes(r[i], r[j]);
    }
  }

  lemma RankMeaning(rows: seq<Entry>)
    ensures |Rank(rows)| == |rows| && multiset(Rank(rows)) == multiset(rows)
    ensures forall i, j :: 0 <= i < j < |rows| ==>
      || Rank(rows)[i].score > Rank(rows)[j].score
      || (Rank(rows)[i].score == Rank(rows)[j].score && Sorting.LexLe(Rank(rows)[i].id, Rank(rows)[j].id))
  {
    PrecedesIsOrder();
    Sorting.SortIsSorted(rows, Precedes);
    var r := Rank(rows);
    forall i, j | 0 <= i < j < |r|
      ensures r[i].score > r[j].score || (r[i].score == r[j].score && Sorting.LexLe(r[i].id, r[j].id))
    {
      assert Precedes(r[i], r[j]);
    }
  }

  /** The audit order is deterministic: it does not depend on the order of the input rows. */
  lemma RankIgnoresInputOrder(a: seq<Entry>, b: seq<Entry>)
    requires multiset(a) == multiset(b)
    ensures Rank(a) == Rank(b)
  {
    PrecedesIsOrder();
    Sorting.SortIsSorted(a, Precedes);
    Sorting.SortIsSorted(b, Precedes);
    Sorting.SortedIsUnique(Rank(a), Rank(b), Precedes);
  }

  // ----- Stage caps -----

  ghost predicate Increasing(caps: seq<nat>) { forall i, j :: 0 <= i < j < |caps| ==> caps[i] < caps[j] }

  function InsertCap(c: nat, caps: seq<nat>): seq<nat> {
    if caps == [] || c < caps[0] then [c] + caps
    else if c == caps[0] then caps
    else [caps[0]] + InsertCap(c, caps[1..])
  }

  function Cut(c: int, n: nat): int { if c < n then c else n }

  /** The positive caps, cut at the number of rows, without repetition and in order. */
  function CapsOf(stageCaps: seq<int>, n: nat): seq<nat> {
    if stageCaps == [] then []
    else
      var rest := CapsOf(stageCaps[1..], n);
      if stageCaps[0] > 0 then InsertCap(Cut(stageCaps[0], n), rest) else rest
  }

  lemma {:induction false} InsertCapKeeps(c: nat, caps: seq<nat>)
    requires Increasing(caps)
    ensures Increasing(InsertCap(c, caps))
    ensures forall x :: x in InsertCap(c, caps) <==> x == c || x in caps
  {
    if caps == [] || c <= caps[0] {
    } else {
      InsertCapKeeps(c, caps[1..]);
      var t := InsertCap(c, caps[1..]);
      forall k | 0 <= k < |t| ensures caps[0] < t[k] {
        assert t[k] in t;
        assert t[k] == c || t[k] in caps[1..];
      }
      assert caps == [caps[0]] + caps[1..];
    }
  }

  lemma {:induction false} CapsOrdered(stageCaps: seq<int>, n: nat)
    ensures Increasing(CapsOf(stageCaps, n))
    ensures forall x :: x in CapsOf(stageCaps, n) <==> exists c :: c in stageCaps && c > 0 && x == Cut(c, n)
    ensures forall x :: x in CapsOf(stageCaps, n) ==> x <= n
  {
    if stageCaps == [] {
    } else {
      var c, rest := stageCaps[0], CapsOf(stageCaps[1..], n);
      CapsOrdered(stageCaps[1..], n);
      assert stageCaps == [c] + stageCaps[1..];
      if c > 0 {
        InsertCapKeeps(Cut(c, n), rest);
      }
    }
  }

  /** x is a positive cap, cut at the number of rows. */
  ghost predicate IsCap(stageCaps: seq<int>, n: nat, x: nat) {
    exists c :: c in stageCaps && c > 0 && x == if c < n then c else n
  }

  /** The caps of the stages are distinct, increasing, and exactly the positive inputs cut at the number of rows. */
  lemma CapsAreOrdered(stageCaps: seq<int>, n: nat)
    ensures forall i, j :: 0 <= i < j < |CapsOf(stageCaps, n)| ==> CapsOf(stageCaps, n)[i] < CapsOf(stageCaps, n)[j]
    ensures forall x: nat :: x in CapsOf(stageCaps, n) <==> IsCap(stageCaps, n, x)
    ensures forall x :: x in CapsOf(stageCaps, n) ==> x <= n
  {
    CapsOrdered(stageCaps, n);
    forall x: nat ensures x in CapsOf(stageCaps, n) <==> IsCap(stageCaps, n, x) {
      if x in CapsOf(stageCaps, n) {
        var c :| c in stageCaps && c > 0 && x == Cut(c, n);
      }
    }
  }

  // ----- One stage -----

  datatype Reason = NoCandidates | BudgetExhausted | BelowRealized | GapClosed

  /** runner stands for the auditor: the scored responses to one stage's actions. */
  datatype Env = Env(ranked: seq<Entry>, caps: seq<nat>, budget: Option<int>, tasks: nat, epsilon: real,
                     gapMin: real, relaxed: Option<real>, runner: (nat, seq<Entry>) -> seq<Response>)

  datatype State = State(cursor: nat, jobs: nat, best: real, audited: map<string, real>, stageOf: map<string, nat>,
                         under: nat, maxUnder: real, stop: Option<Reason>)

  /** Jobs one action costs. */
  function PerAction(env: Env): (n: nat)
    ensures n >= 1
  {
    if env.tasks < 1 then 1 else env.tasks
  }

  /** None when another stage is justified, otherwise why it is not. */
  function ShouldEscalate(env: Env, best: real, predicted: Option<real>, remaining: int): Option<Reason> {
    if predicted.None? then Some(NoCandidates)
    else if remaining <= 0 then Some(BudgetExhausted)
    else if predicted.value <= best + env.epsilon then Some(BelowRealized)
    else if env.relaxed.Some? && env.relaxed.value - best <= env.gapMin then Some(GapClosed)
    else None
  }

  function Ids(entries: seq<Entry>): set<string> { set e | e in entries :: e.id }

  /** Keeps the best score of every action of the stage; responses to other actions are ignored. */
  function Collect(audited: map<string, real>, ids: set<string>, rs: seq<Response>): map<string, real> {
    if rs == [] then audited
    else
      var m, r := Collect(audited, ids, rs[..|rs| - 1]), rs[|rs| - 1];
      if r.id in ids then m[r.id := if r.id in m then Max(r.score, m[r.id]) else r.score] else m
  }

  /** The predicted score of every action of a stage; of a repeated identifier, the last. */
  function Predictions(chunk: seq<Entry>): (m: map<string, real>)
    ensures forall e :: e in chunk ==> e.id in m
  {
    if chunk == [] then map[]
    else
      assert chunk == chunk[..|chunk| - 1] + [chunk[|chunk| - 1]];
      Predictions(chunk[..|chunk| - 1])[chunk[|chunk| - 1].id := chunk[|chunk| - 1].score]
  }

  /** The counters after the entries of a stage, one by one. */
  function Tally(s: State, chunk: seq<Entry>, stage: nat, predicted: map<string, real>): State
    requires forall e :: e in chunk ==> e.id in predicted
  {
    if chunk == [] then s
    else
      var t, e := Tally(s, chunk[..|chunk| - 1], stage, predicted), chunk[|chunk| - 1];
      var placed := t.(stageOf := t.stageOf[e.id := stage]);
      if e.id !in s.audited then placed
      else
        var score, under := s.audited[e.id], s.audited[e.id] - predicted[e.id];
        var raised := placed.(best := Max(t.best, score));
        if under > 0.0 then raised.(under := t.under + 1, maxUnder := Max(t.maxUnder, under)) else raised
  }

  function Slice(ranked: seq<Entry>, lo: nat, hi: nat): seq<Entry>
    requires hi <= |ranked|
  {
    if lo < hi then ranked[lo..hi] else []
  }

  function Remaining(env: Env, s: State, full: nat): int {
    if env.budget.Some? then env.budget.value - s.jobs else full * PerAction(env)
  }

  /** Whole actions that fit; the division rounds down. */
  function Room(env: Env, remaining: int, full: nat): int {
    if env.budget.Some? then remaining / PerAction(env) else full
  }

  /** The effect of auditing a chunk. */
  function Audit(env: Env, s: State, stage: nat, chunk: seq<Entry>): State {
    var audited := Collect(s.audited, Ids(chunk), env.runner(stage, chunk));
    var t := Tally(s.(audited := audited), chunk, stage, Predictions(chunk));
    t.(jobs := s.jobs + |chunk| * PerAction(env), cursor := s.cursor + |chunk|)
  }

  function Stage(env: Env, s: State, k: nat): State
    requires k < |env.caps| && env.caps[k] <= |env.ranked|
  {
    var full := Slice(env.ranked, s.cursor, env.caps[k]);
    if full == [] then s
    else
      var remaining := Remaining(env, s, |full|);
      var verdict := if k == 0 then None else ShouldEscalate(env, s.best, Some(full[0].score), remaining);
      var room := Room(env, remaining, |full|);
      if verdict.Some? then s.(stop := verdict)
      else if room <= 0 then s.(stop := Some(BudgetExhausted))
      else
        var n: nat := if room < |full| then room else |full|;
        var t := Audit(env, s, k, full[..n]);
        if n < |full| then t.(stop := Some(BudgetExhausted)) else t
  }

  ghost predicate CapsFit(env: Env) {
    Increasing(env.caps) && forall k :: 0 <= k < |env.caps| ==> env.caps[k] <= |env.ranked|
  }

  /** Stages k, k+1, ... until one stops the audit. */
  function Run(env: Env, s: State, k: nat): State
    requires CapsFit(env) && k <= |env.caps|
    decreases |env.caps| - k
  {
    if k == |env.caps| || s.stop.Some? then s else Run(env, Stage(env, s, k), k + 1)
  }

  const START := State(0, 0, 0.0, map[], map[], 0, 0.0, None)

  function Outcome(env: Env): State
    requires CapsFit(env)
  {
    Run(env, START, 0)
  }

  // ----- What a stage does, in terms of the settings and the auditor's answers -----

  /** The last entry with its identifier, whose prediction counts. */
  ghost predicate LastWithId(chunk: seq<Entry>, j: nat) {
    j < |chunk| && forall i :: j < i < |chunk| ==> chunk[i].id != chunk[j].id
  }

  ghost predicate InChunk(chunk: seq<Entry>, id: string) { exists i: nat :: i < |chunk| && chunk[i].id == id }

  /** The auditor answers id with this score, and id was asked for. */
  ghost predicate Answers(chunk: seq<Entry>, rs: seq<Response>, id: string, score: real) {
    InChunk(chunk, id) && Response(id, score) in rs
  }

  /** The audited scores after a stage: for every action the largest of its earlier score and its answers. */
  ghost predicate Hears(before: map<string, real>, after: map<string, real>, chunk: seq<Entry>, rs: seq<Response>) {
    forall id ::
      && (id in after <==> id in before || exists x :: Answers(chunk, rs, id, x))
      && (id in after ==>
            && (id in before ==> after[id] >= before[id])
            && (forall x :: Answers(chunk, rs, id, x) ==> after[id] >= x)
            && ((id in before && after[id] == before[id]) || Answers(chunk, rs, id, after[id])))
  }

  /** By how much the audited score of entry i exceeds its prediction. */
  ghost predicate Misses(audited: map<string, real>, chunk: seq<Entry>, i: nat, x: real) {
    && i < |chunk| && chunk[i].id in audited
    && exists j: nat :: LastWithId(chunk, j) && chunk[j].id == chunk[i].id && x == audited[chunk[i].id] - chunk[j].score
  }

  ghost predicate Surprises(audited: map<string, real>, chunk: seq<Entry>, i: nat) {
    exists x :: x > 0.0 && Misses(audited, chunk, i, x)
  }

  /** The entries whose audited score exceeds their prediction. */
  ghost function Missed(audited: map<string, real>, chunk: seq<Entry>): set<nat> {
    set i: nat | i < |chunk| && Surprises(audited, chunk, i)
  }

  /** The counters after a stage over the entries of chunk. */
  ghost predicate Notes(s: State, t: State, chunk: seq<Entry>, k: nat) {
    && (forall id :: id in t.stageOf <==> id in s.stageOf || InChunk(chunk, id))
    && (forall id :: id in t.stageOf ==> t.stageOf[id] == if InChunk(chunk, id) then k else s.stageOf[id])
    && t.best >= s.best && (forall e :: e in chunk && e.id in t.audited ==> t.best >= t.audited[e.id])
    && (t.best == s.best || exists e :: e in chunk && e.id in t.audited && t.best == t.audited[e.id])
    && t.under == s.under + |Missed(t.audited, chunk)|
    && t.maxUnder >= s.maxUnder
    && (forall i, x :: x > 0.0 && Misses(t.audited, chunk, i, x) ==> t.maxUnder >= x)
    && (t.maxUnder == s.maxUnder || exists i :: t.maxUnder > 0.0 && Misses(t.audited, chunk, i, t.maxUnder))
  }

  /** n more actions are within the budget. */
  ghost predicate Affords(env: Env, s: State, n: nat) {
    env.budget.Some? ==> s.jobs + n * (if env.tasks < 1 then 1 else env.tasks) <= env.budget.value
  }

  /** The first stage is always worth while; a later one when its first prediction beats the best score by more
      than epsilon and the relaxed value, if given, is more than gapMin above the best. */
  ghost predicate WorthWhile(env: Env, s: State, k: nat)
    requires s.cursor < |env.ranked|
  {
    || k == 0
    || (&& env.ranked[s.cursor].score > s.best + env.epsilon
        && (env.relaxed.Some? ==> env.relaxed.value - s.best > env.gapMin))
  }

  /** Stage k audits the next n actions, as many as the cap and the budget allow. */
  ghost predicate Audits(env: Env, s: State, t: State, k: nat, n: nat)
    requires k < |env.caps| && env.caps[k] <= |env.ranked|
  {
    && 0 < n <= env.caps[k] - s.cursor && t.cursor == s.cursor + n
    && t.jobs == s.jobs + n * (if env.tasks < 1 then 1 else env.tasks)
    && Affords(env, s, n) && (t.cursor < env.caps[k] ==> !Affords(env, s, n + 1))
    && t.stop == (if t.cursor < env.caps[k] then Some(BudgetExhausted) else None)
    && var chunk := env.ranked[s.cursor..t.cursor];
       Hears(s.audited, t.audited, chunk, env.runner(k, chunk)) && Notes(s, t, chunk, k)
  }

  /** What stage k makes of s. The reason is the first that applies: no job left, no prediction above the best,
      the relaxed gap closed, no room for an action. */
  ghost predicate StageMeaning(env: Env, s: State, t: State, k: nat)
    requires k < |env.caps| && env.caps[k] <= |env.ranked|
  {
    if s.stop.Some? || s.cursor >= env.caps[k] then t == s
    else if WorthWhile(env, s, k) && Affords(env, s, 1) then
      t.cursor > s.cursor && Audits(env, s, t, k, t.cursor - s.cursor)
    else
      && t == s.(stop := t.stop)
      && t.stop == Some(
           if k > 0 && env.budget.Some? && env.budget.value <= s.jobs then BudgetExhausted
           else if k > 0 && env.ranked[s.cursor].score <= s.best + env.epsilon then BelowRealized
           else if k > 0 && env.relaxed.Some? && env.relaxed.value - s.best <= env.gapMin then GapClosed
           else BudgetExhausted)
  }

  /** states lists the states before each stage and after the last. */
  ghost predicate IsAudit(env: Env, states: seq<State>, t: State) {
    && |states| == |env.caps| + 1 && states[0] == State(0, 0, 0.0, map[], map[], 0, 0.0, None)
    && t == states[|env.caps|]
    && (forall k :: 0 <= k < |env.caps| ==> env.caps[k] <= |env.ranked|)
    && (forall k: nat :: k < |env.caps| ==> StageMeaning(env, states[k], states[k + 1], k))
  }

  lemma {:induction false} CollectMeaning(before: map<string, real>, chunk: seq<Entry>, rs: seq<Response>)
    ensures Hears(before, Collect(before, Ids(chunk), rs), chunk, rs)
  {
    forall id ensures id in Ids(chunk) <==> InChunk(chunk, id) {
      IdsMeaning(chunk, id);
    }
    if rs == [] {
    } else {
      var head, r := rs[..|rs| - 1], rs[|rs| - 1];
      CollectMeaning(before, chunk, head);
      assert rs == head + [r] && r == Response(r.id, r.score);
      hide Ids, InChunk;
      var m, after := Collect(before, Ids(chunk), head), Collect(before, Ids(chunk), rs);
      HearMore(before, m, after, chunk, head, r);
    }
  }

  lemma IdsMeaning(chunk: seq<Entry>, id: string)
    ensures id in Ids(chunk) <==> InChunk(chunk, id)
  {
    if id in Ids(chunk) {
      var e :| e in chunk && e.id == id;
      var i :| 0 <= i < |chunk| && chunk[i] == e;
    }
  }

  lemma HearMore(before: map<string, real>, m: map<string, real>, after: map<string, real>, chunk: seq<Entry>,
                 rs: seq<Response>, r: Response)
    requires Hears(before, m, chunk, rs)
    requires after ==
      if InChunk(chunk, r.id) then m[r.id := if r.id in m then Max(r.score, m[r.id]) else r.score] else m
    ensures Hears(before, after, chunk, rs + [r])
  {
    hide InChunk;
    assert r == Response(r.id, r.score);
    forall id, x ensures Answers(chunk, rs + [r], id, x) <==>
        Answers(chunk, rs, id, x) || (InChunk(chunk, id) && r == Response(id, x)) {
    }
    hide Answers;
    if InChunk(chunk, r.id) {
      assert Answers(chunk, rs + [r], r.id, r.score);
    }
  }

  lemma LastInHead(head: seq<Entry>, last: Entry, j: nat)
    requires j < |head|
    ensures LastWithId(head + [last], j) <==> LastWithId(head, j) && head[j].id != last.id
  {
    var chunk := head + [last];
    if LastWithId(chunk, j) {
      assert chunk[|head|] == last;
      forall x | j < x < |head| ensures head[x].id != head[j].id {
        assert chunk[x] == head[x];
      }
    }
  }

  lemma {:induction false} PredictionsMeaning(chunk: seq<Entry>, i: nat)
    requires i < |chunk|
    ensures exists j: nat :: LastWithId(chunk, j) && chunk[j].id == chunk[i].id
    ensures forall j: nat :: LastWithId(chunk, j) && chunk[j].id == chunk[i].id ==>
      Predictions(chunk)[chunk[i].id] == chunk[j].score
  {
    var head, last := chunk[..|chunk| - 1], chunk[|chunk| - 1];
    assert chunk == head + [last] && LastWithId(chunk, |head|);
    forall j: nat | j < |head| ensures LastWithId(chunk, j) <==> LastWithId(head, j) && head[j].id != last.id {
      LastInHead(head, last, j);
    }
    assert forall j: nat :: LastWithId(chunk, j) ==> j < |chunk|;
    hide LastWithId;
    if chunk[i].id != last.id {
      PredictionsMeaning(head, i);
      var j: nat :| LastWithId(head, j) && j < |head| && head[j].id == head[i].id;
      assert chunk[j] == head[j];
    }
  }

  lemma MissesMeaning(audited: map<string, real>, chunk: seq<Entry>, i: nat, x: real)
    requires i < |chunk|
    ensures Misses(audited, chunk, i, x) <==>
      chunk[i].id in audited && x == audited[chunk[i].id] - Predictions(chunk)[chunk[i].id]
  {
    hide Predictions, LastWithId;
    PredictionsMeaning(chunk, i);
  }

  /** By how much the audited score of e exceeds its prediction, when it does. */
  ghost predicate Over(audited: map<string, real>, predicted: map<string, real>, e: Entry, x: real) {
    e.id in audited && e.id in predicted && x == audited[e.id] - predicted[e.id] && x > 0.0
  }

  predicate Exceeds(audited: map<string, real>, predicted: map<string, real>, e: Entry) {
    e.id in audited && e.id in predicted && audited[e.id] - predicted[e.id] > 0.0
  }

  ghost function Above(audited: map<string, real>, predicted: map<string, real>, chunk: seq<Entry>): set<nat> {
    set i: nat | i < |chunk| && Exceeds(audited, predicted, chunk[i])
  }

  lemma MissStep(s: State, before: seq<Entry>, e: Entry, stage: nat, predicted: map<string, real>)
    requires e.id in predicted && forall x :: x in before ==> x.id in predicted
    ensures var t, u := Tally(s, before, stage, predicted), Tally(s, before + [e], stage, predicted);
      if Exceeds(s.audited, predicted, e)
      then u.under == t.under + 1 && exists x :: Over(s.audited, predicted, e, x) && u.maxUnder == Max(t.maxUnder, x)
      else u.under == t.under && u.maxUnder == t.maxUnder
  {
    assert (before + [e])[..|before|] == before;
    if Exceeds(s.audited, predicted, e) {
      assert Over(s.audited, predicted, e, s.audited[e.id] - predicted[e.id]);
    }
  }

  lemma OverIsUnique(audited: map<string, real>, predicted: map<string, real>, e: Entry)
    ensures forall x, y :: Over(audited, predicted, e, x) && Over(audited, predicted, e, y) ==> x == y
    ensures forall x :: Over(audited, predicted, e, x) ==> Exceeds(audited, predicted, e)
  {
  }

  lemma AboveStep(audited: map<string, real>, predicted: map<string, real>, before: seq<Entry>, e: Entry)
    ensures |Above(audited, predicted, before + [e])| ==
      |Above(audited, predicted, before)| + if Exceeds(audited, predicted, e) then 1 else 0
  {
    hide Exceeds;
    var chunk := before + [e];
    var small, large := Above(audited, predicted, before), Above(audited, predicted, chunk);
    assert chunk[|before|] == e;
    assert large == if Exceeds(audited, predicted, e) then small + {|before|} else small;
  }

  lemma {:induction false} TallyMisses(s: State, chunk: seq<Entry>, stage: nat, predicted: map<string, real>)
    requires forall e :: e in chunk ==> e.id in predicted
    ensures var t := Tally(s, chunk, stage, predicted);
      && t.under == s.under + |Above(s.audited, predicted, chunk)| && t.maxUnder >= s.maxUnder
      && (forall i: nat, x :: i < |chunk| && Over(s.audited, predicted, chunk[i], x) ==> t.maxUnder >= x)
      && (t.maxUnder == s.maxUnder
          || exists i: nat :: i < |chunk| && Over(s.audited, predicted, chunk[i], t.maxUnder))
  {
    if chunk == [] {
    } else {
      var before, e := chunk[..|chunk| - 1], chunk[|chunk| - 1];
      assert chunk == before + [e];
      TallyMisses(s, before, stage, predicted);
      MissStep(s, before, e, stage, predicted);
      OverIsUnique(s.audited, predicted, e);
      AboveStep(s.audited, predicted, before, e);
      hide Tally, Over, Exceeds, Above;
      assert chunk[|before|] == e;
    }
  }

  lemma {:induction false} TallyStages(s: State, chunk: seq<Entry>, stage: nat, predicted: map<string, real>)
    requires forall e :: e in chunk ==> e.id in predicted
    ensures var t := Tally(s, chunk, stage, predicted);
      && (forall id :: id in t.stageOf <==> id in s.stageOf || InChunk(chunk, id))
      && (forall id :: id in t.stageOf ==> t.stageOf[id] == if InChunk(chunk, id) then stage else s.stageOf[id])
  {
    if chunk == [] {
    } else {
      var before, e := chunk[..|chunk| - 1], chunk[|chunk| - 1];
      assert chunk == before + [e];
      TallyStages(s, before, stage, predicted);
      forall id ensures InChunk(chunk, id) <==> InChunk(before, id) || id == e.id {
        if InChunk(before, id) {
          var i: nat :| i < |before| && before[i].id == id;
          assert chunk[i].id == id;
        } else if id == e.id {
          assert chunk[|before|].id == id;
        }
      }
      hide InChunk;
      TallyStep(s, before, e, stage, predicted);
    }
  }

  // ----- What a stage keeps -----

  lemma {:induction false} CollectFacts(audited: map<string, real>, ids: set<string>, rs: seq<Response>, id: string)
    ensures var m := Collect(audited, ids, rs);
      && (id in audited ==> id in m && m[id] >= audited[id])
      && (id !in ids ==> (id in m <==> id in audited) && (id in m ==> m[id] == audited[id]))
      && (forall r :: r in rs && r.id == id && id in ids ==> id in m && m[id] >= r.score)
  {
    if rs == [] {
    } else {
      CollectFacts(audited, ids, rs[..|rs| - 1], id);
      assert rs == rs[..|rs| - 1] + [rs[|rs| - 1]];
    }
  }

  /** The tally of one more entry. */
  lemma TallyStep(s: State, before: seq<Entry>, e: Entry, stage: nat,
                  predicted: map<string, real>)
    requires e.id in predicted && forall x :: x in before ==> x.id in predicted
    ensures var t, u := Tally(s, before, stage, predicted), Tally(s, before + [e], stage, predicted);
      && u.cursor == t.cursor && u.jobs == t.jobs && u.stop == t.stop && u.audited == t.audited
      && u.stageOf == t.stageOf[e.id := stage]
      && u.best == if e.id in s.audited then Max(t.best, s.audited[e.id]) else t.best
  {
    assert (before + [e])[..|before|] == before;
  }

  lemma {:induction false} TallyFrame(s: State, chunk: seq<Entry>, stage: nat, predicted: map<string, real>)
    requires forall e :: e in chunk ==> e.id in predicted
    ensures var t := Tally(s, chunk, stage, predicted);
      && t.cursor == s.cursor && t.jobs == s.jobs && t.stop == s.stop && t.audited == s.audited
      && t.stageOf.Keys == s.stageOf.Keys + Ids(chunk)
  {
    if chunk == [] {
    } else {
      var before, e := chunk[..|chunk| - 1], chunk[|chunk| - 1];
      TallyFrame(s, before, stage, predicted);
      assert chunk == before + [e];
      assert Ids(chunk) == Ids(before) + {e.id};
      TallyStep(s, before, e, stage, predicted);
      hide Tally;
    }
  }

  lemma {:induction false} TallyBest(s: State, chunk: seq<Entry>, stage: nat, predicted: map<string, real>)
    requires forall e :: e in chunk ==> e.id in predicted
    ensures var t := Tally(s, chunk, stage, predicted);
      && t.best >= s.best
      && (forall e :: e in chunk && e.id in s.audited ==> s.audited[e.id] <= t.best)
      && (t.best == s.best || exists e :: e in chunk && e.id in s.audited && s.audited[e.id] == t.best)
  {
    if chunk == [] {
    } else {
      var before, e := chunk[..|chunk| - 1], chunk[|chunk| - 1];
      TallyBest(s, before, stage, predicted);
      assert chunk == before + [e];
      assert e in chunk;
      TallyStep(s, before, e, stage, predicted);
      hide Tally;
    }
  }

  lemma TallyFacts(s: State, chunk: seq<Entry>, stage: nat, predicted: map<string, real>)
    requires forall e :: e in chunk ==> e.id in predicted
    ensures var t := Tally(s, chunk, stage, predicted);
      && t.cursor == s.cursor && t.jobs == s.jobs && t.stop == s.stop && t.audited == s.audited
      && t.stageOf.Keys == s.stageOf.Keys + Ids(chunk) && t.best >= s.best
      && (forall e :: e in chunk && e.id in s.audited ==> s.audited[e.id] <= t.best)
      && (t.best == s.best || exists e :: e in chunk && e.id in s.audited && s.audited[e.id] == t.best)
  {
    hide Tally, Ids;
    TallyFrame(s, chunk, stage, predicted);
    TallyBest(s, chunk, stage, predicted);
  }

  lemma MissedMeaning(audited: map<string, real>, chunk: seq<Entry>)
    ensures forall i: nat, x :: i < |chunk| ==>
      (x > 0.0 && Misses(audited, chunk, i, x) <==> Over(audited, Predictions(chunk), chunk[i], x))
    ensures Missed(audited, chunk) == Above(audited, Predictions(chunk), chunk)
  {
    hide Predictions, Misses;
    forall i: nat, x | i < |chunk|
      ensures x > 0.0 && Misses(audited, chunk, i, x) <==> Over(audited, Predictions(chunk), chunk[i], x)
    {
      MissesMeaning(audited, chunk, i, x);
    }
    forall i: nat | i < |chunk|
      ensures Surprises(audited, chunk, i) <==> Exceeds(audited, Predictions(chunk), chunk[i])
    {
      if Exceeds(audited, Predictions(chunk), chunk[i]) {
        assert Over(audited, Predictions(chunk), chunk[i], audited[chunk[i].id] - Predictions(chunk)[chunk[i].id]);
      }
    }
  }

  lemma NotesMeaning(s: State, audited: map<string, real>, chunk: seq<Entry>, k: nat)
    ensures Notes(s, Tally(s.(audited := audited), chunk, k, Predictions(chunk)), chunk, k)
  {
    hide Tally, Predictions, Misses, Missed, InChunk, Above, Over;
    var u, predicted := s.(audited := audited), Predictions(chunk);
    var t := Tally(u, chunk, k, predicted);
    TallyFacts(u, chunk, k, predicted);
    TallyStages(u, chunk, k, predicted);
    TallyMisses(u, chunk, k, predicted);
    MissedMeaning(audited, chunk);
    forall i, x | x > 0.0 && Misses(t.audited, chunk, i, x) ensures t.maxUnder >= x {
      MissesInRange(audited, chunk, i, x);
    }
  }

  lemma MissesInRange(audited: map<string, real>, chunk: seq<Entry>, i: nat, x: real)
    requires Misses(audited, chunk, i, x)
    ensures i < |chunk|
  {
  }

  /** Best is the largest audited score, or the starting 0. */
  ghost predicate BestIsLargest(s: State) {
    && s.best >= 0.0 && (forall id :: id in s.audited ==> s.audited[id] <= s.best)
    && (s.best == 0.0 || exists id :: id in s.audited && s.audited[id] == s.best)
  }

  /** Everything the audit keeps from stage to stage. */
  ghost predicate Inv(env: Env, s: State) {
    && s.cursor <= |env.ranked| && s.jobs == s.cursor * PerAction(env)
    && (env.budget.Some? ==> s.jobs <= if env.budget.value > 0 then env.budget.value else 0)
    && s.stageOf.Keys == Ids(env.ranked[..s.cursor])
    && s.audited.Keys <= s.stageOf.Keys
    && BestIsLargest(s)
  }

  lemma AuditBest(env: Env, s: State, stage: nat, chunk: seq<Entry>)
    requires BestIsLargest(s)
    ensures BestIsLargest(Audit(env, s, stage, chunk)) && Audit(env, s, stage, chunk).best >= s.best
  {
    hide Collect, Tally;
    var ids, rs := Ids(chunk), env.runner(stage, chunk);
    var m := Collect(s.audited, ids, rs);
    TallyFacts(s.(audited := m), chunk, stage, Predictions(chunk));
    var t := Audit(env, s, stage, chunk);
    forall id | id in m ensures m[id] <= t.best {
      CollectFacts(s.audited, ids, rs, id);
      if id in ids {
        var e :| e in chunk && e.id == id;
      }
    }
    if t.best == s.best && s.best != 0.0 {
      var id :| id in s.audited && s.audited[id] == s.best;
      CollectFacts(s.audited, ids, rs, id);
      assert m[id] <= t.best;
    }
  }

  lemma PrefixMoves(env: Env, c: nat, n: nat)
    requires c + n <= |env.ranked|
    ensures Ids(env.ranked[..c + n]) == Ids(env.ranked[..c]) + Ids(env.ranked[c..c + n])
  {
    assert env.ranked[..c + n] == env.ranked[..c] + env.ranked[c..c + n];
  }

  lemma AuditKeepsInv(env: Env, s: State, stage: nat, n: nat)
    requires Inv(env, s) && s.cursor + n <= |env.ranked|
    requires env.budget.Some? ==> s.jobs + n * PerAction(env) <= if env.budget.value > 0 then env.budget.value else 0
    ensures Inv(env, Audit(env, s, stage, env.ranked[s.cursor..s.cursor + n]))
  {
    hide Collect, Tally, BestIsLargest, Predictions, PerAction;
    var chunk := env.ranked[s.cursor..s.cursor + n];
    var ids, rs := Ids(chunk), env.runner(stage, chunk);
    var m := Collect(s.audited, ids, rs);
    AuditBest(env, s, stage, chunk);
    TallyFacts(s.(audited := m), chunk, stage, Predictions(chunk));
    PrefixMoves(env, s.cursor, n);
    hide Ids;
    forall id | id in m ensures id in s.stageOf.Keys + ids {
      CollectFacts(s.audited, ids, rs, id);
    }
    MulSum(s.cursor, n, PerAction(env));
  }

  lemma MulSum(a: nat, b: nat, c: nat)
    ensures (a + b) * c == a * c + b * c
  {
  }

  /** The stages before k are behind the cursor. */
  ghost predicate Aligned(env: Env, s: State, k: nat)
    requires CapsFit(env) && k <= |env.caps|
  {
    s.stop.None? ==> s.cursor == if k == 0 then 0 else env.caps[k - 1]
  }

  /** Why the audit stopped, in terms of the state it stopped in. */
  ghost predicate StopExplained(env: Env, s: State) {
    match s.stop
    case None => true
    case Some(NoCandidates) => false
    case Some(BudgetExhausted) =>
      s.cursor < |env.ranked| && env.budget.Some? && s.jobs + PerAction(env) > env.budget.value
    case Some(BelowRealized) => s.cursor < |env.ranked| && env.ranked[s.cursor].score <= s.best + env.epsilon
    case Some(GapClosed) =>
      s.cursor < |env.ranked| && env.relaxed.Some? && env.relaxed.value - s.best <= env.gapMin
  }

  /** Rounding down: room actions fit, one more does not. */
  lemma RoomFits(remaining: int, c: nat, n: nat)
    requires c >= 1
    ensures n <= remaining / c <==> n * c <= remaining
    ensures remaining / c <= 0 ==> remaining < c
  {
    var q := remaining / c;
    assert q * c <= remaining < q * c + c;
    if n <= q {
      MulLe(n, q, c);
    } else {
      MulLe(q + 1, n, c);
    }
  }

  lemma MulLe(a: int, b: int, c: nat)
    requires a <= b
    ensures a * c <= b * c
  {
  }

  /** The number of actions that fit: they are within the budget, and if they are fewer than offered one
      more would not be. */
  lemma RoomKeepsBudget(env: Env, s: State, full: nat, n: nat)
    requires Inv(env, s) && var room := Room(env, Remaining(env, s, full), full);
      room > 0 && n == if room < full then room else full
    ensures env.budget.Some? ==> s.jobs + n * PerAction(env) <= if env.budget.value > 0 then env.budget.value else 0
    ensures n < full ==> env.budget.Some? && s.jobs + n * PerAction(env) + PerAction(env) > env.budget.value
  {
    hide BestIsLargest;
    var c := PerAction(env);
    if env.budget.Some? {
      RoomFits(env.budget.value - s.jobs, c, n);
      RoomFits(env.budget.value - s.jobs, c, n + 1);
      MulSum(n, 1, c);
    }
  }

  lemma StageAudits(env: Env, s: State, k: nat, n: nat)
    requires CapsFit(env) && k < |env.caps| && Inv(env, s) && Aligned(env, s, k) && s.stop.None?
    requires s.cursor < env.caps[k] && n <= env.caps[k] - s.cursor
    requires env.budget.Some? ==> s.jobs + n * PerAction(env) <= if env.budget.value > 0 then env.budget.value else 0
    ensures var t := Audit(env, s, k, env.ranked[s.cursor..s.cursor + n]);
      && Inv(env, t) && Inv(env, t.(stop := Some(BudgetExhausted))) && t.stop.None?
      && t.cursor == s.cursor + n && t.jobs == s.jobs + n * PerAction(env)
  {
    hide Audit, BestIsLargest;
    AuditKeepsInv(env, s, k, n);
    AuditMoves(env, s, k, env.ranked[s.cursor..s.cursor + n]);
    StopKeepsInv(env, Audit(env, s, k, env.ranked[s.cursor..s.cursor + n]), Some(BudgetExhausted));
  }

  /** Whole actions that fit, when stage k may go on. */
  function Fitting(env: Env, s: State, full: nat): int { Room(env, Remaining(env, s, full), full) }

  predicate GoesOn(env: Env, s: State, k: nat, full: seq<Entry>)
    requires full != []
  {
    && (k == 0 || ShouldEscalate(env, s.best, Some(full[0].score), Remaining(env, s, |full|)).None?)
    && Fitting(env, s, |full|) > 0
  }

  lemma StageStops(env: Env, s: State, k: nat)
    requires k < |env.caps| && env.caps[k] <= |env.ranked| && s.cursor < env.caps[k] && s.stop.None?
    requires !GoesOn(env, s, k, Slice(env.ranked, s.cursor, env.caps[k]))
    ensures var t := Stage(env, s, k); t == s.(stop := t.stop) && t.stop.Some? && StopExplained(env, t)
  {
    hide Audit;
    var full := Slice(env.ranked, s.cursor, env.caps[k]);
    assert full[0] == env.ranked[s.cursor];
    RoomFits(Remaining(env, s, |full|), PerAction(env), 0);
  }

  lemma StageGoes(env: Env, s: State, k: nat)
    requires CapsFit(env) && k < |env.caps| && Inv(env, s) && Aligned(env, s, k) && s.stop.None?
    requires s.cursor < env.caps[k] && GoesOn(env, s, k, Slice(env.ranked, s.cursor, env.caps[k]))
    ensures Inv(env, Stage(env, s, k)) && Aligned(env, Stage(env, s, k), k + 1)
    ensures StopExplained(env, Stage(env, s, k))
  {
    hide Audit, Inv, Room, Remaining, ShouldEscalate, PerAction;
    var full := Slice(env.ranked, s.cursor, env.caps[k]);
    var room := Fitting(env, s, |full|);
    var n: nat := if room < |full| then room else |full|;
    assert full[..n] == env.ranked[s.cursor..s.cursor + n];
    RoomKeepsBudget(env, s, |full|, n);
    StageAudits(env, s, k, n);
  }

  lemma StageKeeps(env: Env, s: State, k: nat)
    requires CapsFit(env) && k < |env.caps| && Inv(env, s) && Aligned(env, s, k) && s.stop.None?
    ensures Inv(env, Stage(env, s, k)) && Aligned(env, Stage(env, s, k), k + 1)
    ensures StopExplained(env, Stage(env, s, k))
  {
    hide Audit, Inv, Room, Remaining, ShouldEscalate, PerAction, GoesOn, StopExplained;
    var full := Slice(env.ranked, s.cursor, env.caps[k]);
    if full == [] {
      NotStopped(env, s);
    } else if GoesOn(env, s, k, full) {
      StageGoes(env, s, k);
    } else {
      StageStops(env, s, k);
      StopKeepsInv(env, s, Stage(env, s, k).stop);
    }
  }

  lemma NotStopped(env: Env, s: State)
    requires s.stop.None?
    ensures StopExplained(env, s)
  {
  }

  lemma StopKeepsInv(env: Env, s: State, stop: Option<Reason>)
    requires Inv(env, s)
    ensures Inv(env, s.(stop := stop))
  {
  }

  lemma AuditMoves(env: Env, s: State, stage: nat, chunk: seq<Entry>)
    ensures var t := Audit(env, s, stage, chunk);
      t.cursor == s.cursor + |chunk| && t.jobs == s.jobs + |chunk| * PerAction(env) && t.stop == s.stop
  {
    hide Collect, Tally;
    TallyFacts(s.(audited := Collect(s.audited, Ids(chunk), env.runner(stage, chunk))), chunk, stage,
               Predictions(chunk));
  }

  lemma AffordsMeaning(env: Env, s: State, full: nat, n: nat)
    requires 0 < n <= full
    ensures n <= Room(env, Remaining(env, s, full), full) <==> Affords(env, s, n)
    ensures env.budget.Some? && Remaining(env, s, full) <= 0 ==> !Affords(env, s, n)
    ensures env.budget.None? ==> Remaining(env, s, full) > 0
  {
    var c := PerAction(env);
    if env.budget.Some? {
      RoomFits(env.budget.value - s.jobs, c, n);
      MulLe(1, n, c);
    } else {
      MulLe(1, full, c);
    }
  }

  lemma NotesSame(s: State, t: State, u: State, chunk: seq<Entry>, k: nat)
    requires Notes(s, t, chunk, k) && u == t.(jobs := u.jobs, cursor := u.cursor, stop := u.stop)
    ensures Notes(s, u, chunk, k)
  {
    hide Misses, Missed, InChunk;
  }

  lemma AuditIsMeant(env: Env, s: State, k: nat, n: nat)
    requires k < |env.caps| && env.caps[k] <= |env.ranked| && s.stop.None? && 0 < n <= env.caps[k] - s.cursor
    requires Affords(env, s, n) && (s.cursor + n < env.caps[k] ==> !Affords(env, s, n + 1))
    ensures var t := Audit(env, s, k, env.ranked[s.cursor..s.cursor + n]);
      Audits(env, s, t.(stop := if s.cursor + n < env.caps[k] then Some(BudgetExhausted) else None), k, n)
  {
    hide Collect, Tally, Predictions, Ids, Hears, Notes, Affords;
    var chunk := env.ranked[s.cursor..s.cursor + n];
    var m := Collect(s.audited, Ids(chunk), env.runner(k, chunk));
    var u := Tally(s.(audited := m), chunk, k, Predictions(chunk));
    CollectMeaning(s.audited, chunk, env.runner(k, chunk));
    NotesMeaning(s, m, chunk, k);
    TallyFrame(s.(audited := m), chunk, k, Predictions(chunk));
    var t := Audit(env, s, k, chunk).(stop := if s.cursor + n < env.caps[k] then Some(BudgetExhausted) else None);
    NotesSame(s, u, t, chunk, k);
    assert env.ranked[s.cursor..t.cursor] == chunk;
  }

  /** A stage does what its settings and the auditor's answers say. */
  lemma StageIsMeant(env: Env, s: State, k: nat)
    requires k < |env.caps| && env.caps[k] <= |env.ranked| && s.stop.None?
    ensures StageMeaning(env, s, Stage(env, s, k), k)
  {
    hide Audit, Affords, Audits, Room, Remaining;
    if s.cursor < env.caps[k] {
      var full := Slice(env.ranked, s.cursor, env.caps[k]);
      var room := Room(env, Remaining(env, s, |full|), |full|);
      assert full[0] == env.ranked[s.cursor];
      AffordsMeaning(env, s, |full|, 1);
      RemainingMeaning(env, s, |full|);
      if WorthWhile(env, s, k) && Affords(env, s, 1) {
        var n: nat := if room < |full| then room else |full|;
        AffordsMeaning(env, s, |full|, n);
        if n < |full| {
          AffordsMeaning(env, s, |full|, n + 1);
        }
        assert full[..n] == env.ranked[s.cursor..s.cursor + n];
        AuditMoves(env, s, k, full[..n]);
        AuditIsMeant(env, s, k, n);
        StageChunk(env, s, k, n);
      }
    }
  }

  lemma RemainingMeaning(env: Env, s: State, full: nat)
    ensures env.budget.Some? ==> Remaining(env, s, full) == env.budget.value - s.jobs
  {
  }

  lemma StageChunk(env: Env, s: State, k: nat, n: nat)
    requires k < |env.caps| && env.caps[k] <= |env.ranked| && s.stop.None? && 0 < n <= env.caps[k] - s.cursor
    requires WorthWhile(env, s, k)
    requires var full := env.caps[k] - s.cursor; var remaining := Remaining(env, s, full);
      && remaining > 0 && Room(env, remaining, full) > 0
      && n == if Room(env, remaining, full) < full then Room(env, remaining, full) else full
    ensures Stage(env, s, k) == Audit(env, s, k, env.ranked[s.cursor..s.cursor + n]).(
              stop := if s.cursor + n < env.caps[k] then Some(BudgetExhausted) else None)
  {
    hide Audit, Room, Remaining;
    var full := Slice(env.ranked, s.cursor, env.caps[k]);
    assert full[0] == env.ranked[s.cursor];
    assert full[..n] == env.ranked[s.cursor..s.cursor + n];
    AuditMoves(env, s, k, full[..n]);
  }

  lemma {:induction false} RunKeeps(env: Env, s: State, k: nat)
    requires CapsFit(env) && k <= |env.caps| && Inv(env, s) && Aligned(env, s, k) && StopExplained(env, s)
    ensures var t := Run(env, s, k); Inv(env, t) && StopExplained(env, t) && Aligned(env, t, |env.caps|)
    decreases |env.caps| - k
  {
    hide Stage, Inv, StopExplained;
    if k == |env.caps| || s.stop.Some? {
    } else {
      StageKeeps(env, s, k);
      RunKeeps(env, Stage(env, s, k), k + 1);
    }
  }

  // ----- Main results -----

  /** Every audit: at most the budget is spent, in whole actions; the audited identifiers are those of a
      prefix of the ranking; best is the largest audited score; and the stop reason is accurate. */
  lemma AuditIsAccounted(env: Env)
    requires CapsFit(env)
    ensures var t := Outcome(env);
      && t.cursor <= |env.ranked| && t.jobs == t.cursor * PerAction(env)
      && (env.budget.Some? ==> t.jobs <= if env.budget.value > 0 then env.budget.value else 0)
      && t.stageOf.Keys == Ids(env.ranked[..t.cursor]) && t.audited.Keys <= t.stageOf.Keys
      && BestIsLargest(t) && StopExplained(env, t)
      && (t.stop.None? ==> t.cursor == if env.caps == [] then 0 else env.caps[|env.caps| - 1])
  {
    hide Run;
    assert env.ranked[..0] == [];
    RunKeeps(env, START, 0);
  }

  /** The states before each stage from s before stage k on, and the last. */
  ghost function Trail(env: Env, s: State, k: nat): (states: seq<State>)
    requires CapsFit(env) && k <= |env.caps|
    ensures |states| == |env.caps| - k + 1 && states[0] == s
    decreases |env.caps| - k
  {
    if k == |env.caps| then [s] else [s] + Trail(env, if s.stop.Some? then s else Stage(env, s, k), k + 1)
  }

  lemma {:induction false} TrailMeaning(env: Env, s: State, k: nat)
    requires CapsFit(env) && k <= |env.caps|
    ensures Trail(env, s, k)[|env.caps| - k] == Run(env, s, k)
    ensures forall j: nat :: j < |env.caps| - k ==>
      StageMeaning(env, Trail(env, s, k)[j], Trail(env, s, k)[j + 1], k + j)
    decreases |env.caps| - k
  {
    hide Stage, StageMeaning;
    if k == |env.caps| {
    } else {
      var t := if s.stop.Some? then s else Stage(env, s, k);
      if s.stop.Some? {
        StoppedStage(env, s, k);
      } else {
        StageIsMeant(env, s, k);
      }
      TrailMeaning(env, t, k + 1);
      var rest, all := Trail(env, t, k + 1), Trail(env, s, k);
      assert all == [s] + rest;
      forall j: nat | j < |env.caps| - k ensures StageMeaning(env, all[j], all[j + 1], k + j) {
        if j == 0 {
          assert all[1] == t;
        } else {
          assert StageMeaning(env, rest[j - 1], rest[j - 1 + 1], k + 1 + (j - 1));
          assert all[j] == rest[j - 1] && all[j + 1] == rest[j];
        }
      }
    }
  }

  lemma StoppedStage(env: Env, s: State, k: nat)
    requires k < |env.caps| && env.caps[k] <= |env.ranked| && s.stop.Some?
    ensures StageMeaning(env, s, s, k)
  {
  }

  lemma OutcomeMeaning(env: Env)
    requires CapsFit(env)
    ensures IsAudit(env, Trail(env, START, 0), Outcome(env))
  {
    hide StageMeaning, Run, Trail;
    TrailMeaning(env, START, 0);
  }

  lemma {:induction false} StoppedForGood(env: Env, states: seq<State>, t: State, k: nat)
    requires IsAudit(env, states, t) && k <= |env.caps| && states[k].stop.Some?
    ensures t == states[k]
    decreases |env.caps| - k
  {
    hide Audits, WorthWhile, Affords;
    if k == |env.caps| {
    } else {
      assert StageMeaning(env, states[k], states[k + 1], k);
      StoppedForGood(env, states, t, k + 1);
    }
  }

  lemma {:induction false} ReachedCap(env: Env, states: seq<State>, t: State, k: nat)
    requires IsAudit(env, states, t) && Increasing(env.caps) && k <= |env.caps| && states[k].stop.None?
    ensures states[k].cursor == if k == 0 then 0 else env.caps[k - 1]
  {
    hide Hears, Notes, WorthWhile, Affords;
    if k == 0 {
    } else {
      assert StageMeaning(env, states[k - 1], states[k], k - 1);
      ReachedCap(env, states, t, k - 1);
    }
  }

  /** A later stage audits exactly when nothing stopped the audit before, its first prediction beats the best
      score by more than epsilon, the relaxed gap is open and the budget has room for an action. When it does
      not, nothing is audited from there on. */
  lemma LaterStageAuditsIff(env: Env, states: seq<State>, t: State, k: nat)
    requires IsAudit(env, states, t) && Increasing(env.caps) && 0 < k < |env.caps|
    ensures var s := states[k];
      && (states[k + 1].cursor > s.cursor
          <==> && s.stop.None? && s.cursor < |env.ranked| && env.ranked[s.cursor].score > s.best + env.epsilon
               && (env.relaxed.Some? ==> env.relaxed.value - s.best > env.gapMin)
               && (env.budget.Some? ==> s.jobs + (if env.tasks < 1 then 1 else env.tasks) <= env.budget.value))
      && (states[k + 1].cursor <= s.cursor ==>
            && t.cursor == s.cursor && t.jobs == s.jobs && t.audited == s.audited && t.stageOf == s.stageOf
            && t.stop.Some?)
  {
    hide Audits;
    assert StageMeaning(env, states[k], states[k + 1], k);
    if states[k].stop.None? {
      ReachedCap(env, states, t, k);
    }
    if states[k + 1].stop.Some? {
      StoppedForGood(env, states, t, k + 1);
    }
  }

  /** The auditor answers every action it is given, never below the action's true score. */
  ghost predicate Answered(env: Env, truth: string -> real) {
    forall stage: nat, chunk: seq<Entry>, e: Entry {:trigger env.runner(stage, chunk), e in chunk} :: e in chunk ==>
      exists r: Response :: r in env.runner(stage, chunk) && r.id == e.id && r.score >= truth(e.id)
  }

  ghost predicate Heard(env: Env, truth: string -> real, s: State) {
    && s.cursor <= |env.ranked|
    && forall e :: e in env.ranked[..s.cursor] ==> e.id in s.audited && s.audited[e.id] >= truth(e.id)
  }

  lemma AuditHears(env: Env, truth: string -> real, s: State, stage: nat, n: nat)
    requires Answered(env, truth) && Heard(env, truth, s) && s.cursor + n <= |env.ranked|
    ensures Heard(env, truth, Audit(env, s, stage, env.ranked[s.cursor..s.cursor + n]))
  {
    hide Collect, Tally, Predictions;
    var chunk := env.ranked[s.cursor..s.cursor + n];
    var t := Audit(env, s, stage, chunk);
    var ids, rs := Ids(chunk), env.runner(stage, chunk);
    TallyFacts(s.(audited := Collect(s.audited, ids, rs)), chunk, stage, Predictions(chunk));
    assert env.ranked[..t.cursor] == env.ranked[..s.cursor] + chunk;
    forall e | e in env.ranked[..t.cursor] ensures e.id in t.audited && t.audited[e.id] >= truth(e.id) {
      CollectFacts(s.audited, ids, rs, e.id);
      if e in chunk {
        var r :| r in rs && r.id == e.id && r.score >= truth(e.id);
      }
    }
  }

  lemma StageHears(env: Env, truth: string -> real, s: State, k: nat)
    requires CapsFit(env) && k < |env.caps| && Answered(env, truth) && Heard(env, truth, s)
    ensures Heard(env, truth, Stage(env, s, k))
  {
    hide Audit, Answered;
    var full := Slice(env.ranked, s.cursor, env.caps[k]);
    if full != [] {
      var room := Room(env, Remaining(env, s, |full|), |full|);
      if room > 0 {
        var n: nat := if room < |full| then room else |full|;
        assert full[..n] == env.ranked[s.cursor..s.cursor + n];
        AuditHears(env, truth, s, k, n);
      }
    }
  }

  lemma {:induction false} RunHears(env: Env, truth: string -> real, s: State, k: nat)
    requires CapsFit(env) && k <= |env.caps| && Answered(env, truth) && Heard(env, truth, s)
    ensures Heard(env, truth, Run(env, s, k))
    decreases |env.caps| - k
  {
    hide Stage, Heard, Answered;
    if k == |env.caps| || s.stop.Some? {
    } else {
      StageHears(env, truth, s, k);
      RunHears(env, truth, Stage(env, s, k), k + 1);
    }
  }

  /** Audited actions are never better than the reported best. */
  lemma AuditedBelowBest(env: Env, truth: string -> real, i: nat)
    requires CapsFit(env) && Answered(env, truth) && i < Outcome(env).cursor
    ensures i < |env.ranked| && truth(env.ranked[i].id) <= Outcome(env).best
  {
    hide Run, Answered;
    AuditIsAccounted(env);
    RunHears(env, truth, START, 0);
    var head := env.ranked[..Outcome(env).cursor];
    assert env.ranked[i] == head[i];
    assert head[i] in head;
  }

  /** No regret: when the audit stops because no prediction beats the realized best, and predictions are
      upper bounds, no action at all beats it by more than epsilon. */
  lemma NoRegret(env: Env, truth: string -> real, e: Entry)
    requires CapsFit(env) && Answered(env, truth) && Descending(env.ranked) && env.epsilon >= 0.0
    requires forall x :: x in env.ranked ==> truth(x.id) <= x.score
    requires Outcome(env).stop == Some(BelowRealized) && e in env.ranked
    ensures truth(e.id) <= Outcome(env).best + env.epsilon
  {
    hide Outcome, Answered;
    AuditIsAccounted(env);
    var t := Outcome(env);
    var i :| 0 <= i < |env.ranked| && env.ranked[i] == e;
    if i < t.cursor {
      AuditedBelowBest(env, truth, i);
    }
  }

  /** The relaxation stop: when the relaxed value bounds every action, the best is within the gap of all. */
  lemma GapRegret(env: Env, truth: string -> real, e: Entry)
    requires CapsFit(env) && Outcome(env).stop == Some(GapClosed) && e in env.ranked
    requires env.relaxed.Some? && truth(e.id) <= env.relaxed.value
    ensures truth(e.id) <= Outcome(env).best + env.gapMin
  {
    hide Outcome;
    AuditIsAccounted(env);
  }

  /** The reported best is an audited score exactly when some audited score is not negative; otherwise it is
      the starting 0. */
  lemma BestIsAttainedIff(env: Env)
    requires CapsFit(env)
    ensures var t := Outcome(env);
      && ((exists id :: id in t.audited && t.audited[id] == t.best)
          <==> exists id :: id in t.audited && t.audited[id] >= 0.0)
      && (forall id :: id in t.audited ==> t.audited[id] <= t.best)
      && ((forall id :: id in t.audited ==> t.audited[id] < 0.0) ==> t.best == 0.0)
  {
    AuditIsAccounted(env);
    hide Outcome;
  }

  /** When every stage ran and the last cap covers the ranking, the best bounds every true score. */
  lemma FullAudit(env: Env, truth: string -> real, e: Entry)
    requires CapsFit(env) && Answered(env, truth) && Outcome(env).stop == None
    requires env.caps != [] && env.caps[|env.caps| - 1] == |env.ranked| && e in env.ranked
    ensures truth(e.id) <= Outcome(env).best
  {
    hide Outcome, Answered;
    AuditIsAccounted(env);
    var i :| 0 <= i < |env.ranked| && env.ranked[i] == e;
    AuditedBelowBest(env, truth, i);
  }

  /** The auditor's scores are the true ones. */
  ghost predicate Truthful(env: Env, truth: string -> real) {
    forall stage: nat, chunk: seq<Entry>, r: Response ::
      r in env.runner(stage, chunk) ==> r.score == truth(r.id)
  }

  ghost predicate AllTrue(s: State, truth: string -> real) {
    forall id :: id in s.audited ==> s.audited[id] == truth(id)
  }

  lemma {:induction false} CollectTrue(audited: map<string, real>, ids: set<string>, rs: seq<Response>,
                                       truth: string -> real)
    requires forall id :: id in audited ==> audited[id] == truth(id)
    requires forall r :: r in rs ==> r.score == truth(r.id)
    ensures var m := Collect(audited, ids, rs); forall id :: id in m ==> m[id] == truth(id)
  {
    if rs == [] {
    } else {
      CollectTrue(audited, ids, rs[..|rs| - 1], truth);
    }
  }

  lemma AuditTrue(env: Env, truth: string -> real, s: State, stage: nat, chunk: seq<Entry>)
    requires Truthful(env, truth) && AllTrue(s, truth)
    ensures AllTrue(Audit(env, s, stage, chunk), truth)
  {
    hide Collect, Tally;
    var ids, rs := Ids(chunk), env.runner(stage, chunk);
    CollectTrue(s.audited, ids, rs, truth);
    TallyFrame(s.(audited := Collect(s.audited, ids, rs)), chunk, stage, Predictions(chunk));
  }

  lemma StageTrue(env: Env, truth: string -> real, s: State, k: nat)
    requires CapsFit(env) && k < |env.caps| && Truthful(env, truth) && AllTrue(s, truth)
    ensures AllTrue(Stage(env, s, k), truth)
  {
    hide Audit, Truthful;
    var full := Slice(env.ranked, s.cursor, env.caps[k]);
    if full != [] {
      var room := Room(env, Remaining(env, s, |full|), |full|);
      if room > 0 {
        AuditTrue(env, truth, s, k, full[..if room < |full| then room else |full|]);
      }
    }
  }

  lemma {:induction false} RunTrue(env: Env, truth: string -> real, s: State, k: nat)
    requires CapsFit(env) && k <= |env.caps| && Truthful(env, truth) && AllTrue(s, truth)
    ensures AllTrue(Run(env, s, k), truth)
    decreases |env.caps| - k
  {
    hide Stage, AllTrue, Truthful;
    if k == |env.caps| || s.stop.Some? {
    } else {
      StageTrue(env, truth, s, k);
      RunTrue(env, truth, Stage(env, s, k), k + 1);
    }
  }

  /** A full audit with true scores finds the best action, exactly when some action's score is not negative. */
  lemma FullAuditFindsBestIff(env: Env, truth: string -> real)
    requires CapsFit(env) && Answered(env, truth) && Truthful(env, truth) && Outcome(env).stop == None
    requires env.caps != [] && env.caps[|env.caps| - 1] == |env.ranked|
    ensures (exists e :: e in env.ranked && truth(e.id) == Outcome(env).best)
       <==> exists e :: e in env.ranked && truth(e.id) >= 0.0
    ensures forall e :: e in env.ranked ==> truth(e.id) <= Outcome(env).best
  {
    RunTrue(env, truth, START, 0);
    assert AllTrue(Outcome(env), truth);
    hide Outcome, Answered, Truthful;
    AuditIsAccounted(env);
    forall e | e in env.ranked ensures truth(e.id) <= Outcome(env).best {
      FullAudit(env, truth, e);
    }
    var t := Outcome(env);
    if e :| e in env.ranked && truth(e.id) >= 0.0 {
      BestIsTrue(env, t, truth, e);
    }
  }

  lemma BestIsTrue(env: Env, t: State, truth: string -> real, e: Entry)
    requires t.cursor <= |env.ranked| && t.stageOf.Keys == Ids(env.ranked[..t.cursor])
    requires t.audited.Keys <= t.stageOf.Keys
    requires BestIsLargest(t) && AllTrue(t, truth) && e in env.ranked && 0.0 <= truth(e.id) <= t.best
    ensures exists x :: x in env.ranked && truth(x.id) == t.best
  {
    if t.best == 0.0 {
      assert truth(e.id) == t.best;
    } else {
      var id :| id in t.audited && t.audited[id] == t.best;
      assert id in Ids(env.ranked[..t.cursor]);
      var x :| x in env.ranked[..t.cursor] && x.id == id;
      assert x in env.ranked && truth(x.id) == t.best;
    }
  }

  // ----- The report -----

  /** Rows the report marks as audited. */
  function CountIn(entries: seq<Entry>, ids: set<string>): nat {
    if entries == [] then 0
    else CountIn(entries[..|entries| - 1], ids) + if entries[|entries| - 1].id in ids then 1 else 0
  }

  /** No identifier occurs on both sides of the cursor. */
  ghost predicate Separated(entries: seq<Entry>, c: nat)
    requires c <= |entries|
  {
    forall i, j :: 0 <= i < c <= j < |entries| ==> entries[i].id != entries[j].id
  }

  lemma {:induction false} CountBeyond(entries: seq<Entry>, ids: set<string>, c: nat)
    requires c <= |entries| && forall i :: 0 <= i < c ==> entries[i].id in ids
    ensures CountIn(entries, ids) >= c
    ensures CountIn(entries, ids) == c <==> forall j :: c <= j < |entries| ==> entries[j].id !in ids
  {
    if |entries| > c {
      CountBeyond(entries[..|entries| - 1], ids, c);
    } else if c > 0 {
      CountBeyond(entries[..c - 1], ids, c - 1);
    }
  }

  /** The actions the report marks as audited cost what was spent. */
  ghost predicate ReportIsExact(env: Env)
    requires CapsFit(env)
  {
    CountIn(env.ranked, Outcome(env).stageOf.Keys) * PerAction(env) == Outcome(env).jobs
  }

  /** The report never counts too few actions, and is exact when no identifier is repeated across the end
      of the audited prefix. */
  lemma SeparatedIsExact(env: Env)
    requires CapsFit(env)
    ensures var t := Outcome(env);
      && t.cursor <= |env.ranked| && CountIn(env.ranked, t.stageOf.Keys) >= t.cursor
      && (ReportIsExact(env) <==> Separated(env.ranked, t.cursor))
  {
    AuditIsAccounted(env);
    hide Outcome, Ids, Separated, StopExplained, BestIsLargest;
    var t := Outcome(env);
    PrefixIds(env.ranked, t.cursor);
    CountBeyond(env.ranked, t.stageOf.Keys, t.cursor);
    SameProduct(CountIn(env.ranked, t.stageOf.Keys), t.cursor, PerAction(env), t.jobs);
    hide CountIn, PerAction;
  }

  lemma SameProduct(n: nat, c: nat, per: nat, jobs: nat)
    requires n >= c && per >= 1 && jobs == c * per
    ensures n * per == jobs <==> n == c
  {
    if n > c {
      MulSum(c, n - c, per);
      MulLe(1, n - c, per);
    }
  }

  lemma PrefixIds(entries: seq<Entry>, c: nat)
    requires c <= |entries|
    ensures forall i :: 0 <= i < c ==> entries[i].id in Ids(entries[..c])
    ensures Separated(entries, c) <==> forall j :: c <= j < |entries| ==> entries[j].id !in Ids(entries[..c])
  {
    var head := entries[..c];
    forall i | 0 <= i < c ensures entries[i].id in Ids(head) {
      assert head[i] == entries[i];
    }
    if Separated(entries, c) {
      forall j | c <= j < |entries| ensures entries[j].id !in Ids(head) {
        forall e | e in head ensures e.id != entries[j].id {
          var i :| 0 <= i < |head| && head[i] == e;
          assert head[i] == entries[i];
        }
      }
    }
  }

  function IdList(rows: seq<Entry>): (ids: seq<string>)
    ensures |ids| == |rows|
  {
    seq(|rows|, i requires 0 <= i < |rows| => rows[i].id)
  }

  /** The audit of these rows under these caps. */
  ghost predicate Stages(env: Env, rows: seq<Entry>, stageCaps: seq<int>) {
    env.ranked == Rank(rows) && env.caps == CapsOf(stageCaps, |rows|)
  }

  lemma StagesFit(env: Env, rows: seq<Entry>, stageCaps: seq<int>)
    requires Stages(env, rows, stageCaps)
    ensures CapsFit(env) && Descending(env.ranked) && |env.ranked| == |rows|
  {
    RankIsDescending(rows);
    CapsAreOrdered(stageCaps, |rows|);
    forall k | 0 <= k < |env.caps| ensures env.caps[k] <= |rows| {
      assert env.caps[k] in env.caps;
    }
  }

  /** Every audit of rows with these identifiers is reported exactly. */
  ghost predicate AlwaysExact(ids: seq<string>) {
    forall env: Env, rows: seq<Entry>, stageCaps: seq<int> | IdList(rows) == ids && Stages(env, rows, stageCaps) ::
      CapsFit(env) && ReportIsExact(env)
  }

  lemma RankedIdsDistinct(rows: seq<Entry>)
    requires Distinct(IdList(rows))
    ensures Distinct(IdList(Rank(rows)))
  {
    var ids, ranked := IdList(rows), Rank(rows);
    RankIsDescending(rows);
    forall i, j | 0 <= i < j < |rows| ensures rows[i] != rows[j] {
      assert ids[i] != ids[j];
    }
    Sorting.SameMultisetDistinct(rows, ranked);
    forall i, j | 0 <= i < j < |ranked| ensures ranked[i].id != ranked[j].id {
      assert ranked[i] in multiset(rows) && ranked[j] in multiset(rows);
      var x :| 0 <= x < |rows| && rows[x] == ranked[i];
      var y :| 0 <= y < |rows| && rows[y] == ranked[j];
      assert ids[x] == ranked[i].id && ids[y] == ranked[j].id;
    }
  }

  /** Rows with falling scores: they are ranked as they stand. */
  function Falling(ids: seq<string>): (rows: seq<Entry>)
    ensures IdList(rows) == ids
  {
    seq(|ids|, i requires 0 <= i < |ids| => Entry(ids[i], -(i as real)))
  }

  lemma FallingIsRanked(ids: seq<string>)
    ensures Rank(Falling(ids)) == Falling(ids)
  {
    PrecedesIsOrder();
    Sorting.SortIsSorted(Falling(ids), Precedes);
    Sorting.SortedIsUnique(Rank(Falling(ids)), Falling(ids), Precedes);
  }

  /** With a single cap and no budget the audit ends at the cap. */
  lemma OneStage(env: Env, c: nat)
    requires env.caps == [c] && 0 < c <= |env.ranked| && env.budget.None?
    ensures Outcome(env).cursor == c
  {
    hide Collect, Tally;
    AuditMoves(env, START, 0, env.ranked[..c]);
    assert env.ranked[0..c][..c] == env.ranked[..c];
    hide Audit;
    assert Stage(env, START, 0) == Audit(env, START, 0, env.ranked[..c]);
    assert Run(env, Stage(env, START, 0), 1) == Stage(env, START, 0);
  }

  /** The report is exact for every audit of rows with given identifiers, whatever their scores and the
      settings, exactly when no identifier is repeated. */
  lemma ReportIsExactIff(ids: seq<string>)
    ensures AlwaysExact(ids) <==> Distinct(ids)
  {
    hide Outcome, ReportIsExact, Rank, CapsOf;
    if Distinct(ids) {
      forall env: Env, rows: seq<Entry>, stageCaps: seq<int> | IdList(rows) == ids && Stages(env, rows, stageCaps)
        ensures CapsFit(env) && ReportIsExact(env)
      {
        StagesFit(env, rows, stageCaps);
        RankedIdsDistinct(rows);
        DistinctIsSeparated(env);
      }
    } else {
      var i, j :| 0 <= i < j < |ids| && ids[i] == ids[j];
      var rows := Falling(ids);
      FallingIsRanked(ids);
      var env := Env(rows, [i + 1], None, 1, 0.0, 0.0, None, (k, chunk) => []);
      OneCap(i + 1, |rows|);
      assert Stages(env, rows, [i + 1]);
      StagesFit(env, rows, [i + 1]);
      OneStage(env, i + 1);
      SeparatedIsExact(env);
      assert rows[i].id == IdList(rows)[i] && rows[j].id == IdList(rows)[j];
    }
  }

  lemma OneCap(c: nat, n: nat)
    requires 0 < c <= n
    ensures CapsOf([c], n) == [c]
  {
    assert [c][1..] == [];
  }

  lemma DistinctIsSeparated(env: Env)
    requires CapsFit(env) && Distinct(IdList(env.ranked))
    ensures ReportIsExact(env)
  {
    hide ReportIsExact, Outcome;
    SeparatedIsExact(env);
    var c := Outcome(env).cursor;
    forall i, j | 0 <= i < c <= j < |env.ranked| ensures env.ranked[i].id != env.ranked[j].id {
      assert IdList(env.ranked)[i] != IdList(env.ranked)[j];
    }
  }

  // ----- The loops -----

  method CollectScores(before: map<string, real>, ids: set<string>, rs: seq<Response>)
    returns (audited: map<string, real>)
    ensures audited == Collect(before, ids, rs)
  {
    audited := before;
    for n := 0 to |rs|
      invariant audited == Collect(before, ids, rs[..n])
    {
      assert rs[..n + 1][..n] == rs[..n];
      var r := rs[n];
      if r.id in ids {
        audited := audited[r.id := if r.id in audited then Max(r.score, audited[r.id]) else r.score];
      }
    }
    assert rs[..|rs|] == rs;
  }

  method TallyChunk(s: State, chunk: seq<Entry>, stage: nat)
    returns (stageOf: map<string, nat>, best: real, under: nat, maxUnder: real)
    ensures Tally(s, chunk, stage, Predictions(chunk))
         == s.(stageOf := stageOf, best := best, under := under, maxUnder := maxUnder)
  {
    var predicted := Predictions(chunk);
    hide Predictions;
    stageOf, best, under, maxUnder := s.stageOf, s.best, s.under, s.maxUnder;
    for n := 0 to |chunk|
      invariant Tally(s, chunk[..n], stage, predicted)
             == s.(stageOf := stageOf, best := best, under := under, maxUnder := maxUnder)
    {
      assert chunk[..n + 1][..n] == chunk[..n];
      var e := chunk[n];
      stageOf := stageOf[e.id := stage];
      if e.id in s.audited {
        var score := s.audited[e.id];
        best := Max(best, score);
        var miss := score - predicted[e.id];
        if miss > 0.0 {
          under := under + 1;
          maxUnder := Max(maxUnder, miss);
        }
      }
    }
    assert chunk[..|chunk|] == chunk;
  }

  /** One stage: the decision, the cut at the budget, the audit and the bookkeeping. */
  method RunStage(env: Env, s: State, k: nat) returns (t: State)
    requires k < |env.caps| && env.caps[k] <= |env.ranked|
    ensures t == Stage(env, s, k)
  {
    hide Collect, Tally, ShouldEscalate, Predictions, Ids, PerAction;
    t := s;
    var full := Slice(env.ranked, s.cursor, env.caps[k]);
    if full == [] {
      return;
    }
    var remaining := if env.budget.Some? then env.budget.value - s.jobs else |full| * PerAction(env);
    if k > 0 {
      var verdict := ShouldEscalate(env, s.best, Some(full[0].score), remaining);
      if verdict.Some? {
        t := t.(stop := verdict);
        return;
      }
    }
    var room := if env.budget.Some? then remaining / PerAction(env) else |full|;
    if room <= 0 {
      t := t.(stop := Some(BudgetExhausted));
      return;
    }
    var chunk := full[..if room < |full| then room else |full|];
    var audited := CollectScores(s.audited, Ids(chunk), env.runner(k, chunk));
    t := t.(audited := audited);
    var stageOf, best, under, maxUnder := TallyChunk(t, chunk, k);
    t := t.(stageOf := stageOf, best := best, under := under, maxUnder := maxUnder,
            jobs := s.jobs + |chunk| * PerAction(env), cursor := s.cursor + |chunk|);
    if |chunk| < |full| {
      t := t.(stop := Some(BudgetExhausted));
    }
  }

  /** The staged loop. */
  method RunStages(env: Env) returns (t: State)
    requires CapsFit(env)
    ensures t == Outcome(env) && exists states :: IsAudit(env, states, t)
  {
    hide Run, Stage, IsAudit;
    OutcomeMeaning(env);
    t := START;
    var k := 0;
    while k < |env.caps| && t.stop.None?
      invariant 0 <= k <= |env.caps| && Run(env, t, k) == Outcome(env)
    {
      RunStep(env, t, k);
      t := RunStage(env, t, k);
      k := k + 1;
    }
    RunStop(env, t, k);
  }

  lemma RunStep(env: Env, s: State, k: nat)
    requires CapsFit(env) && k < |env.caps| && s.stop.None?
    ensures Run(env, s, k) == Run(env, Stage(env, s, k), k + 1)
  {
  }

  lemma RunStop(env: Env, s: State, k: nat)
    requires CapsFit(env) && k <= |env.caps| && (k == |env.caps| || s.stop.Some?)
    ensures Run(env, s, k) == s
  {
  }

  /** The whole staged audit of a list of rows. */
  method RunStagedAudit(rows: seq<Entry>, tasks: nat, stageCaps: seq<int>, budget: Option<int>, epsilon: real,
                        gapMin: real, relaxed: Option<real>, runner: (nat, seq<Entry>) -> seq<Response>)
    returns (env: Env, t: State)
    ensures env == Env(Rank(rows), CapsOf(stageCaps, |rows|), budget, tasks, epsilon, gapMin, relaxed, runner)
    ensures multiset(env.ranked) == multiset(rows)
    ensures forall i, j :: 0 <= i < j < |rows| ==>
      || env.ranked[i].score > env.ranked[j].score
      || (env.ranked[i].score == env.ranked[j].score && Sorting.LexLe(env.ranked[i].id, env.ranked[j].id))
    ensures CapsFit(env) && t == Outcome(env) && exists states :: IsAudit(env, states, t)
    ensures forall x: nat :: x in env.caps <==> IsCap(stageCaps, |rows|, x)
  {
    env := Env(Rank(rows), CapsOf(stageCaps, |rows|), budget, tasks, epsilon, gapMin, relaxed, runner);
    StagesFit(env, rows, stageCaps);
    RankMeaning(rows);
    CapsAreOrdered(stageCaps, |rows|);
    hide Rank, CapsOf, IsCap, IsAudit, CapsFit, Outcome;
    t := RunStages(env);
  }
}
