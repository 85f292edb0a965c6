/** The budgeted selection of audit candidates under per-task and per-source caps
    (lean_rgc/audit_scheduler.py, schedule_audit_candidates). Scores are arbitrary. */
module AuditScheduler {
  import opened Greedy
  import opened Options
  import Sorting
  import opened Sums

  datatype Row = Row(actionId: string, score: real, task: string, source: string)

  /** None means unlimited; the empty task string means the row belongs to no task. */
  datatype Caps = Caps(budget: Option<int>, perTask: Option<int>, perSource: Option<int>)

  predicate HigherScore(a: Row, b: Row) { a.score >= b.score }

  function Scored(candidates: seq<Row>): (r: seq<Row>)
    ensures |r| == |candidates|
  {
    Sorting.Sort(candidates, HigherScore)
  }

  function Tasks(rows: seq<Row>): (r: seq<string>)
    ensures |r| == |rows|
  {
    seq(|rows|, i requires 0 <= i < |rows| => rows[i].task)
  }

  function Sources(rows: seq<Row>): (r: seq<string>)
    ensures |r| == |rows|
  {
    seq(|rows|, i requires 0 <= i < |rows| => rows[i].source)
  }

  function Scores(rows: seq<Row>): (r: seq<real>)
    ensures |r| == |rows|
  {
    seq(|rows|, i requires 0 <= i < |rows| => rows[i].score)
  }

  /** The scores with the negative ones raised to zero. */
  function Gains(rows: seq<Row>): (r: seq<real>)
    ensures |r| == |rows|
  {
    seq(|rows|, i requires 0 <= i < |rows| => if rows[i].score >= 0.0 then rows[i].score else 0.0)
  }

  predicate TaskFull(rows: seq<Row>, caps: Caps, S: set<nat>, task: string) {
    caps.perTask.Some? && task != "" && |Group(S, Tasks(rows), task)| >= caps.perTask.value
  }

  predicate SourceFull(rows: seq<Row>, caps: Caps, S: set<nat>, source: string) {
    caps.perSource.Some? && |Group(S, Sources(rows), source)| >= caps.perSource.value
  }

  predicate BudgetSpent(caps: Caps, size: nat) { caps.budget.Some? && size >= caps.budget.value }

  predicate Rejects(rows: seq<Row>, caps: Caps, G: set<nat>, i: nat)
    requires i < |rows|
  {
    BudgetSpent(caps, |G|) || TaskFull(rows, caps, G, rows[i].task) || SourceFull(rows, caps, G, rows[i].source)
  }

  /** The positions taken from the first n scored rows. */
  function Chosen(rows: seq<Row>, caps: Caps, n: nat): (G: set<nat>)
    requires n <= |rows|
    ensures forall i :: i in G ==> i < n
  {
    if n == 0 then {}
    else
      var G := Chosen(rows, caps, n - 1);
      if Rejects(rows, caps, G, n - 1) then G else G + {n - 1}
  }

  /** A selection of scored positions that respects the budget and both caps. */
  ghost predicate Feasible(rows: seq<Row>, caps: Caps, S: set<nat>) {
    && (forall i :: i in S ==> i < |rows|)
    && (caps.budget.Some? ==> |S| <= CapOf(caps.budget.value))
    && (caps.perTask.Some? ==> forall t :: t != "" ==> |Group(S, Tasks(rows), t)| <= CapOf(caps.perTask.value))
    && (caps.perSource.Some? ==> forall t :: |Group(S, Sources(rows), t)| <= CapOf(caps.perSource.value))
  }

  // ----- What is promised -----

  function OfScore(score: real): Row -> bool { (r: Row) => r.score == score }

  /** The candidates, higher score first, equal ones in the order of the input. */
  ghost predicate ScoredFrom(candidates: seq<Row>, rows: seq<Row>) {
    && (forall i, j :: 0 <= i < j < |rows| ==> rows[i].score >= rows[j].score)
    && forall score :: Sorting.Where(rows, OfScore(score)) == Sorting.Where(candidates, OfScore(score))
  }

  /** The positions of S below n that belong to the task, and those that come from the source. */
  function OfTask(rows: seq<Row>, S: set<nat>, task: string, n: nat): set<nat> {
    set i | i in S && i < n && i < |rows| && rows[i].task == task
  }

  function OfSource(rows: seq<Row>, S: set<nat>, source: string, n: nat): set<nat> {
    set i | i in S && i < n && i < |rows| && rows[i].source == source
  }

  /** The rows chosen before row i leave room in the budget, in its task unless it has none, and in its
      source. */
  ghost predicate Open(rows: seq<Row>, caps: Caps, S: set<nat>, i: nat)
    requires i < |rows|
  {
    && (caps.budget.Some? ==> |set j | j in S && j < i| < caps.budget.value)
    && (caps.perTask.Some? && rows[i].task != "" ==> |OfTask(rows, S, rows[i].task, i)| < caps.perTask.value)
    && (caps.perSource.Some? ==> |OfSource(rows, S, rows[i].source, i)| < caps.perSource.value)
  }

  /** A row is taken exactly when it is open, and the tallies count the taken rows of each task and source. */
  ghost predicate IsSchedule(candidates: seq<Row>, caps: Caps, rows: seq<Row>, S: set<nat>, selected: seq<Row>,
                             byTask: map<string, nat>, bySource: map<string, nat>)
  {
    && ScoredFrom(candidates, rows) && PickedAt(rows, S, selected)
    && (forall i :: 0 <= i < |rows| ==> (i in S <==> Open(rows, caps, S, i)))
    && (forall t :: t != "" ==> |OfTask(rows, S, t, |rows|)| == if t in byTask then byTask[t] else 0)
    && "" !in byTask
    && forall t :: |OfSource(rows, S, t, |rows|)| == if t in bySource then bySource[t] else 0
  }

  // ----- The loop -----

  /** The loop state after n rows. */
  ghost predicate Progress(rows: seq<Row>, caps: Caps, n: nat, selected: seq<Row>,
                           byTask: map<string, nat>, bySource: map<string, nat>)
  {
    && n <= |rows|
    && selected == Pick(rows, Indices(Chosen(rows, caps, n), n))
    && Counts(byTask, Chosen(rows, caps, n), Tasks(rows), {""})
    && Counts(bySource, Chosen(rows, caps, n), Sources(rows), {})
  }

  method ScheduleAuditCandidates(candidates: seq<Row>, caps: Caps)
    returns (selected: seq<Row>, byTask: map<string, nat>, bySource: map<string, nat>)
    ensures Progress(Scored(candidates), caps, |candidates|, selected, byTask, bySource)
    ensures exists rows, S :: IsSchedule(candidates, caps, rows, S, selected, byTask, bySource)
  {
    hide Progress, IsSchedule;
    var rows := Scored(candidates);
    selected, byTask, bySource := [], map[], map[];
    var i := 0;
    ProgressStart(rows, caps);
    while i < |rows|
      invariant i <= |rows| && Progress(rows, caps, i, selected, byTask, bySource) && "" !in byTask
    {
      if caps.budget.Some? && |selected| >= caps.budget.value {
        ProgressStop(rows, caps, i, selected, byTask, bySource);
        ProgressMeaning(candidates, caps, selected, byTask, bySource);
        return;
      }
      var r := rows[i];
      var inTask := if r.task in byTask then byTask[r.task] else 0;
      var inSource := if r.source in bySource then bySource[r.source] else 0;
      var full := (caps.perTask.Some? && r.task != "" && inTask >= caps.perTask.value)
                  || (caps.perSource.Some? && inSource >= caps.perSource.value);
      ProgressStep(rows, caps, i, selected, byTask, bySource, inTask, inSource);
      i := i + 1;
      if full { continue; }
      selected := selected + [r];
      if r.task != "" { byTask := byTask[r.task := inTask + 1]; }
      bySource := bySource[r.source := inSource + 1];
    }
    ProgressMeaning(candidates, caps, selected, byTask, bySource);
  }

  lemma ScoredMeaning(candidates: seq<Row>)
    ensures ScoredFrom(candidates, Scored(candidates))
  {
    var rows := Scored(candidates);
    Sorting.SortIsSorted(candidates, HigherScore);
    forall i, j | 0 <= i < j < |rows| ensures rows[i].score >= rows[j].score {
      assert HigherScore(rows[i], rows[j]);
    }
    forall score ensures Sorting.Where(rows, OfScore(score)) == Sorting.Where(candidates, OfScore(score)) {
      Sorting.SortIsStable(candidates, HigherScore, OfScore(score));
    }
  }

  lemma GroupsMeaning(rows: seq<Row>, S: set<nat>, t: string, n: nat)
    requires n <= |rows|
    ensures Group(Below(S, n), Tasks(rows), t) == OfTask(rows, S, t, n)
    ensures Group(Below(S, n), Sources(rows), t) == OfSource(rows, S, t, n)
  {
  }

  /** The loop takes a row exactly when it is open. */
  lemma TakenIffOpen(rows: seq<Row>, caps: Caps, i: nat)
    requires i < |rows|
    ensures var S := Chosen(rows, caps, |rows|); i in S <==> Open(rows, caps, S, i)
  {
    hide Chosen, Group, OfTask, OfSource, Tasks, Sources;
    var S := Chosen(rows, caps, |rows|);
    ChosenMonotone(rows, caps, i, |rows|);
    ChosenMonotone(rows, caps, i + 1, |rows|);
    ChosenStep(rows, caps, i + 1);
    GroupsMeaning(rows, S, rows[i].task, i);
    GroupsMeaning(rows, S, rows[i].source, i);
    assert Below(S, i) == set j | j in S && j < i;
    assert i in Below(S, i + 1) <==> i in S;
  }

  lemma ProgressMeaning(candidates: seq<Row>, caps: Caps, selected: seq<Row>,
                        byTask: map<string, nat>, bySource: map<string, nat>)
    requires Progress(Scored(candidates), caps, |candidates|, selected, byTask, bySource) && "" !in byTask
    ensures exists rows, S :: IsSchedule(candidates, caps, rows, S, selected, byTask, bySource)
  {
    hide Scored, Chosen, Group, Open, ScoredFrom, PickedAt, OfTask, OfSource, Tasks, Sources;
    var rows := Scored(candidates);
    var S := Chosen(rows, caps, |rows|);
    ScoredMeaning(candidates);
    PickIsAt(rows, S);
    BelowAll(S, |rows|);
    forall i | 0 <= i < |rows| ensures i in S <==> Open(rows, caps, S, i) {
      TakenIffOpen(rows, caps, i);
    }
    forall t: string
      ensures Group(S, Tasks(rows), t) == OfTask(rows, S, t, |rows|)
      ensures Group(S, Sources(rows), t) == OfSource(rows, S, t, |rows|)
    {
      GroupsMeaning(rows, S, t, |rows|);
    }
    assert IsSchedule(candidates, caps, rows, S, selected, byTask, bySource);
  }

  lemma ProgressStart(rows: seq<Row>, caps: Caps)
    ensures Progress(rows, caps, 0, [], map[], map[])
  {
    assert forall t :: Group({}, Tasks(rows), t) == {} && Group({}, Sources(rows), t) == {};
  }

  lemma ProgressSize(rows: seq<Row>, caps: Caps, n: nat, selected: seq<Row>,
                     byTask: map<string, nat>, bySource: map<string, nat>)
    requires Progress(rows, caps, n, selected, byTask, bySource)
    ensures |selected| == |Chosen(rows, caps, n)|
  {
    IndicesCount(Chosen(rows, caps, n), n);
    BelowAll(Chosen(rows, caps, n), n);
  }

  lemma ProgressStop(rows: seq<Row>, caps: Caps, n: nat, selected: seq<Row>,
                     byTask: map<string, nat>, bySource: map<string, nat>)
    requires Progress(rows, caps, n, selected, byTask, bySource) && BudgetSpent(caps, |selected|)
    ensures Progress(rows, caps, |rows|, selected, byTask, bySource)
  {
    ProgressSize(rows, caps, n, selected, byTask, bySource);
    BudgetStops(rows, caps, n, |rows|);
    IndicesStop(Chosen(rows, caps, n), n, |rows|);
  }

  lemma ProgressStep(rows: seq<Row>, caps: Caps, n: nat, selected: seq<Row>,
                     byTask: map<string, nat>, bySource: map<string, nat>, inTask: nat, inSource: nat)
    requires Progress(rows, caps, n, selected, byTask, bySource) && n < |rows| && !BudgetSpent(caps, |selected|)
    requires inTask == (if rows[n].task in byTask then byTask[rows[n].task] else 0)
    requires inSource == (if rows[n].source in bySource then bySource[rows[n].source] else 0)
    ensures var r := rows[n];
            if (caps.perTask.Some? && r.task != "" && inTask >= caps.perTask.value)
               || (caps.perSource.Some? && inSource >= caps.perSource.value)
            then Progress(rows, caps, n + 1, selected, byTask, bySource)
            else Progress(rows, caps, n + 1, selected + [r],
                          if r.task != "" then byTask[r.task := inTask + 1] else byTask,
                          bySource[r.source := inSource + 1])
  {
    hide Group, Counts, Pick, Indices, Tasks, Sources;
    var G, r := Chosen(rows, caps, n), rows[n];
    ProgressSize(rows, caps, n, selected, byTask, bySource);
    CountsRead(byTask, G, Tasks(rows), {""}, r.task, inTask);
    CountsRead(bySource, G, Sources(rows), {}, r.source, inSource);
    KeysAt(rows, n);
    IndicesStop(G, n, n + 1);
    CountsGrow(byTask, G, Tasks(rows), {""}, n, inTask);
    CountsGrow(bySource, G, Sources(rows), {}, n, inSource);
    IndicesGrow(G, n);
    PickGrow(rows, Indices(G, n), n);
  }

  lemma KeysAt(rows: seq<Row>, i: nat)
    requires i < |rows|
    ensures Tasks(rows)[i] == rows[i].task && Sources(rows)[i] == rows[i].source
  {
  }

  lemma SpentRejects(rows: seq<Row>, caps: Caps, G: set<nat>, i: nat)
    requires i < |rows| && BudgetSpent(caps, |G|)
    ensures Rejects(rows, caps, G, i)
  {
  }

  lemma {:induction false} BudgetStops(rows: seq<Row>, caps: Caps, i: nat, n: nat)
    requires i <= n <= |rows| && BudgetSpent(caps, |Chosen(rows, caps, i)|)
    ensures Chosen(rows, caps, n) == Chosen(rows, caps, i)
  {
    hide Chosen, Rejects, BudgetSpent;
    if i == n {
    } else {
      BudgetStops(rows, caps, i, n - 1);
      ChosenStep(rows, caps, n);
      SpentRejects(rows, caps, Chosen(rows, caps, n - 1), n - 1);
    }
  }

  // ----- The selection is feasible -----

  lemma AddFeasible(rows: seq<Row>, caps: Caps, G: set<nat>, i: nat)
    requires i < |rows| && i !in G && Feasible(rows, caps, G) && !Rejects(rows, caps, G, i)
    ensures Feasible(rows, caps, G + {i})
  {
    hide Group, Tasks, Sources;
    KeysAt(rows, i);
    if caps.perTask.Some? {
      forall t | t != "" ensures |Group(G + {i}, Tasks(rows), t)| <= CapOf(caps.perTask.value) {
        CapKept(G, Tasks(rows), caps.perTask.value, i, t);
      }
    }
    if caps.perSource.Some? {
      forall t ensures |Group(G + {i}, Sources(rows), t)| <= CapOf(caps.perSource.value) {
        CapKept(G, Sources(rows), caps.perSource.value, i, t);
      }
    }
  }

  lemma EmptyFeasible(rows: seq<Row>, caps: Caps)
    ensures Feasible(rows, caps, {})
  {
    assert forall t :: Group({}, Tasks(rows), t) == {} && Group({}, Sources(rows), t) == {};
  }

  lemma ChosenStep(rows: seq<Row>, caps: Caps, n: nat)
    requires 0 < n <= |rows|
    ensures var G := Chosen(rows, caps, n - 1);
            Chosen(rows, caps, n) == if Rejects(rows, caps, G, n - 1) then G else G + {n - 1}
  {
    hide Rejects;
  }

  lemma {:induction false} ChosenFeasible(rows: seq<Row>, caps: Caps, n: nat)
    requires n <= |rows|
    ensures Feasible(rows, caps, Chosen(rows, caps, n))
  {
    hide Feasible, Rejects;
    if n == 0 {
      EmptyFeasible(rows, caps);
    } else {
      ChosenStep(rows, caps, n);
      ChosenFeasible(rows, caps, n - 1);
      if !Rejects(rows, caps, Chosen(rows, caps, n - 1), n - 1) {
        AddFeasible(rows, caps, Chosen(rows, caps, n - 1), n - 1);
      }
    }
  }

  // ----- Charging a competitor to the selection -----

  lemma {:induction false} ChosenMonotone(rows: seq<Row>, caps: Caps, i: nat, n: nat)
    requires i <= n <= |rows|
    ensures Chosen(rows, caps, i) == Below(Chosen(rows, caps, n), i)
  {
    hide Rejects, Chosen;
    if i == n {
    } else {
      ChosenMonotone(rows, caps, i, n - 1);
      ChosenStep(rows, caps, n);
    }
  }

  lemma RejectedAt(rows: seq<Row>, caps: Caps, i: nat, n: nat)
    requires i < n <= |rows| && i !in Chosen(rows, caps, n)
    ensures Rejects(rows, caps, Chosen(rows, caps, i), i)
  {
    hide Rejects;
    ChosenMonotone(rows, caps, i + 1, n);
    assert i !in Chosen(rows, caps, i + 1);
  }

  lemma RejectsGrows(rows: seq<Row>, caps: Caps, G0: set<nat>, G1: set<nat>, i: nat)
    requires i < |rows| && G0 <= G1 && Rejects(rows, caps, G0, i)
    ensures Rejects(rows, caps, G1, i)
  {
    SubsetSize(G0, G1);
    SubsetSize(Group(G0, Tasks(rows), rows[i].task), Group(G1, Tasks(rows), rows[i].task));
    SubsetSize(Group(G0, Sources(rows), rows[i].source), Group(G1, Sources(rows), rows[i].source));
  }

  /** A row passed over while budget remained was blocked by its task or by its source, and that
      key is still full later. */
  lemma RejectedIsBlocked(rows: seq<Row>, caps: Caps, i: nat, n: nat)
    requires i < n <= |rows| && i !in Chosen(rows, caps, n)
    requires !BudgetSpent(caps, |Chosen(rows, caps, n)|)
    ensures TaskFull(rows, caps, Chosen(rows, caps, n), rows[i].task)
         || SourceFull(rows, caps, Chosen(rows, caps, n), rows[i].source)
  {
    hide Chosen, TaskFull, SourceFull;
    ChosenMonotone(rows, caps, i, n);
    RejectedAt(rows, caps, i, n);
    RejectsGrows(rows, caps, Chosen(rows, caps, i), Chosen(rows, caps, n), i);
  }

  ghost function FullTasks(rows: seq<Row>, caps: Caps, G: set<nat>, S: set<nat>): set<string> {
    set i | i in S && i < |rows| && TaskFull(rows, caps, G, rows[i].task) :: rows[i].task
  }

  ghost function FullSources(rows: seq<Row>, caps: Caps, G: set<nat>, S: set<nat>): set<string> {
    set i | i in S && i < |rows| && SourceFull(rows, caps, G, rows[i].source) :: rows[i].source
  }

  /** On the tasks (and on the sources) the selection has filled, no feasible set has more positions. */
  lemma FullKeysCharge(rows: seq<Row>, caps: Caps, G: set<nat>, S: set<nat>, A: set<nat>)
    requires Feasible(rows, caps, S) && A <= S
    ensures var T := FullTasks(rows, caps, G, A);
            |Grouped(A, Tasks(rows), T)| <= |Grouped(G, Tasks(rows), T)|
    ensures var T := FullSources(rows, caps, G, A);
            |Grouped(A, Sources(rows), T)| <= |Grouped(G, Sources(rows), T)|
  {
    forall t | t in FullTasks(rows, caps, G, A)
      ensures |Group(A, Tasks(rows), t)| <= |Group(G, Tasks(rows), t)|
    {
      SubsetSize(Group(A, Tasks(rows), t), Group(S, Tasks(rows), t));
    }
    GroupwiseLe(A, G, Tasks(rows), FullTasks(rows, caps, G, A));
    forall t | t in FullSources(rows, caps, G, A)
      ensures |Group(A, Sources(rows), t)| <= |Group(G, Sources(rows), t)|
    {
      SubsetSize(Group(A, Sources(rows), t), Group(S, Sources(rows), t));
    }
    GroupwiseLe(A, G, Sources(rows), FullSources(rows, caps, G, A));
  }

  /** 1 when at most one of the two caps is set, otherwise 2. */
  function Factor(caps: Caps): nat { if caps.perTask.Some? && caps.perSource.Some? then 2 else 1 }

  lemma PrefixCharge(rows: seq<Row>, caps: Caps, S: set<nat>, n: nat)
    requires n <= |rows| && Feasible(rows, caps, S)
    ensures |Below(S, n)| <= Factor(caps) * |Chosen(rows, caps, n)|
  {
    hide Chosen, Rejects;
    var G, A := Chosen(rows, caps, n), Below(S, n);
    SubsetSize(A, S);
    if !BudgetSpent(caps, |G|) {
      var T, U := FullTasks(rows, caps, G, A), FullSources(rows, caps, G, A);
      var AT, AS := Grouped(A, Tasks(rows), T), Grouped(A, Sources(rows), U);
      FullKeysCharge(rows, caps, G, S, A);
      forall i | i in A && i !in AT && i !in AS
        ensures i in G && i !in Grouped(G, Tasks(rows), T) && i !in Grouped(G, Sources(rows), U)
      {
        if i !in G { RejectedIsBlocked(rows, caps, i, n); }
      }
      SetCharge(A, G, AT, AS, Grouped(G, Tasks(rows), T), Grouped(G, Sources(rows), U));
    }
  }

  /** Prefix by prefix, any feasible selection has at most Factor times as many rows as the greedy one. */
  lemma GreedyCharges(rows: seq<Row>, caps: Caps, S: set<nat>)
    requires Feasible(rows, caps, S)
    ensures Charged(S, Chosen(rows, caps, |rows|), Factor(caps), |rows|)
  {
    forall k: nat | k <= |rows|
      ensures |Below(S, k)| <= Factor(caps) * |Below(Chosen(rows, caps, |rows|), k)|
    {
      PrefixCharge(rows, caps, S, k);
      ChosenMonotone(rows, caps, k, |rows|);
    }
  }

  lemma {:induction false} GainsDominate(rows: seq<Row>, S: set<nat>, n: nat)
    requires n <= |rows|
    ensures Total(Scores(rows), S, n) <= Total(Gains(rows), S, n)
    ensures (forall i :: 0 <= i < |rows| ==> rows[i].score >= 0.0) ==>
              Total(Scores(rows), S, n) == Total(Gains(rows), S, n)
  {
    if n == 0 {
    } else {
      GainsDominate(rows, S, n - 1);
    }
  }

  lemma ScoredIsDescending(candidates: seq<Row>)
    ensures multiset(Scored(candidates)) == multiset(candidates)
    ensures Descending(Scores(Scored(candidates))) && Descending(Gains(Scored(candidates)))
  {
    var rows := Scored(candidates);
    Sorting.SortIsSorted(candidates, HigherScore);
    assert forall i, j :: 0 <= i < j < |rows| ==> HigherScore(rows[i], rows[j]);
  }

  lemma GainsNonneg(rows: seq<Row>)
    ensures forall i :: 0 <= i < |rows| ==> Gains(rows)[i] >= 0.0
  {
  }

  /** Half-approximation for any scores: the positive part of the greedy total is at least half of
      what any feasible selection collects, and at least all of it when only one cap is set. */
  lemma GreedyGuarantee(candidates: seq<Row>, caps: Caps, S: set<nat>)
    requires Feasible(Scored(candidates), caps, S)
    ensures var rows := Scored(candidates);
            var n := |rows|;
            Total(Scores(rows), S, n) <= Factor(caps) as real * Total(Gains(rows), Chosen(rows, caps, n), n)
  {
    hide Chosen, Feasible, Scored, Charged, Total, Factor, Gains, Scores, Descending;
    var rows := Scored(candidates);
    ScoredIsDescending(candidates);
    GainsNonneg(rows);
    GreedyCharges(rows, caps, S);
    ChargedTotals(Gains(rows), S, Chosen(rows, caps, |rows|), Factor(caps));
    GainsDominate(rows, S, |rows|);
  }

  /** With nonnegative scores: at least half of any feasible total, and exactly optimal when at most
      one of the two caps is set. */
  lemma GreedyHalfOptimal(candidates: seq<Row>, caps: Caps, S: set<nat>)
    requires forall i :: 0 <= i < |candidates| ==> candidates[i].score >= 0.0
    requires Feasible(Scored(candidates), caps, S)
    ensures var rows := Scored(candidates);
            var n := |rows|;
            var best, got := Total(Scores(rows), S, n), Total(Scores(rows), Chosen(rows, caps, n), n);
            && best <= 2.0 * got
            && (caps.perTask.None? || caps.perSource.None? ==> best <= got)
            && Feasible(rows, caps, Chosen(rows, caps, n))
  {
    hide Chosen, Feasible, Scored, Total, Gains, Scores, Descending;
    var rows := Scored(candidates);
    var n := |rows|;
    ScoredIsDescending(candidates);
    GainsNonneg(rows);
    forall i | 0 <= i < n ensures rows[i].score >= 0.0 {
      assert rows[i] in multiset(rows);
      assert rows[i] in candidates;
    }
    GreedyGuarantee(candidates, caps, S);
    GainsDominate(rows, Chosen(rows, caps, n), n);
    ChosenFeasible(rows, caps, n);
    TotalNonneg(Gains(rows), Chosen(rows, caps, n), n);
  }

  lemma {:induction false} TotalNonneg(w: seq<real>, S: set<nat>, n: nat)
    requires n <= |w| && forall i :: 0 <= i < |w| ==> w[i] >= 0.0
    ensures Total(w, S, n) >= 0.0
  {
    if n == 0 {
    } else {
      TotalNonneg(w, S, n - 1);
    }
  }

  function TightRows(): seq<Row> {
    [Row("a", 1.0, "t", "s"), Row("b", 1.0, "t", "u"), Row("c", 1.0, "v", "s")]
  }

  function TightCaps(): Caps { Caps(None, Some(1), Some(1)) }

  lemma TightChoice()
    ensures Scored(TightRows()) == TightRows() && Chosen(TightRows(), TightCaps(), 3) == {0}
  {
    var rows, caps := TightRows(), TightCaps();
    assert rows[1..] == [rows[1], rows[2]] && rows[1..][1..] == [rows[2]] && [rows[2]][1..] == [];
    assert Sorting.Sort(rows[1..], HigherScore) == rows[1..];
    assert Group({}, Tasks(rows), "t") == {} && Group({}, Sources(rows), "s") == {};
    ChosenStep(rows, caps, 1);
    assert Group({0}, Tasks(rows), "t") == {0} && Group({0}, Sources(rows), "s") == {0};
    ChosenStep(rows, caps, 2);
    ChosenStep(rows, caps, 3);
  }

  lemma TightCompetitor()
    ensures Feasible(TightRows(), TightCaps(), {1, 2})
  {
    var rows := TightRows();
    forall t ensures |Group({1, 2}, Tasks(rows), t)| <= 1 && |Group({1, 2}, Sources(rows), t)| <= 1 {
      assert Group({1, 2}, Tasks(rows), t) == if t == "t" then {1} else if t == "v" then {2} else {};
      assert Group({1, 2}, Sources(rows), t) == if t == "u" then {1} else if t == "s" then {2} else {};
    }
  }

  /** The factor 2 is attained: three equal rows where the first blocks the other two. */
  lemma HalfIsTight()
    ensures var rows, caps := Scored(TightRows()), TightCaps();
            && Feasible(rows, caps, {1, 2})
            && Total(Scores(rows), {1, 2}, 3) == 2.0
            && Total(Scores(rows), Chosen(rows, caps, 3), 3) == 1.0
  {
    TightChoice();
    TightCompetitor();
    UnitTotals(Scores(TightRows()));
  }

  lemma UnitTotals(w: seq<real>)
    requires |w| == 3 && w[0] == w[1] == w[2] == 1.0
    ensures Total(w, {0}, 3) == 1.0 && Total(w, {1, 2}, 3) == 2.0
  {
    assert Total(w, {0}, 1) == 1.0 && Total(w, {0}, 2) == 1.0;
    assert Total(w, {1, 2}, 1) == 0.0 && Total(w, {1, 2}, 2) == 1.0;
  }
}
