/** Score-ordered action selection with a per-task limit and a global budget
    (lean_rgc/active_scheduler.py, schedule_actions). Scores are arbitrary. */
module ActiveScheduler {
  import opened Greedy
  import opened Options
  import Sorting
  import opened Sums

  /** An action as scored: an absent or empty task id means the action is global. */
  datatype Action = Action(id: string, task: Option<string>, score: real, margin: real)

  datatype Limits = Limits(budget: Option<int>, perTask: Option<int>, minScore: Option<real>) {
    predicate PerTaskOn() { perTask.Some? && perTask.value > 0 }
  }

  const GLOBAL := "__global__"

  function TaskKey(a: Action): string {
    if a.task.None? || a.task.value == "" then GLOBAL else a.task.value
  }

  predicate Better(a: Action, b: Action) {
    a.score > b.score || (a.score == b.score && a.margin >= b.margin)
  }

  function AtLeast(rows: seq<Action>, bar: real): (r: seq<Action>)
    ensures |r| <= |rows|
    ensures forall k :: 0 <= k < |r| ==> r[k] in rows && r[k].score >= bar
  {
    if rows == [] then [] else (if rows[0].score >= bar then [rows[0]] else []) + AtLeast(rows[1..], bar)
  }

  /** The scored list the selection works on: sorted, then filtered by the minimum score. */
  function Scored(actions: seq<Action>, limits: Limits): seq<Action> {
    var sorted := Sorting.Sort(actions, Better);
    if limits.minScore.Some? then AtLeast(sorted, limits.minScore.value) else sorted
  }

  function Keys(rows: seq<Action>): (r: seq<string>)
    ensures |r| == |rows|
  {
    seq(|rows|, i requires 0 <= i < |rows| => TaskKey(rows[i]))
  }

  /** The loop state: the positions taken, how many are global, and whether the loop has broken off. */
  datatype LoopState = LoopState(chosen: set<nat>, globals: nat, stopped: bool)

  predicate Rejects(rows: seq<Action>, limits: Limits, st: LoopState, i: nat)
    requires i < |rows| && limits.PerTaskOn()
  {
    var key := TaskKey(rows[i]);
    if key == GLOBAL then limits.budget.Some? && st.globals >= limits.budget.value
    else |Group(st.chosen, Keys(rows), key)| >= limits.perTask.value
  }

  function Take(rows: seq<Action>, limits: Limits, st: LoopState, i: nat): LoopState
    requires i < |rows|
  {
    var chosen := st.chosen + {i};
    LoopState(chosen, st.globals + (if TaskKey(rows[i]) == GLOBAL then 1 else 0),
              limits.budget.Some? && |chosen| >= limits.budget.value)
  }

  function After(rows: seq<Action>, limits: Limits, n: nat): (st: LoopState)
    requires n <= |rows| && limits.PerTaskOn()
    ensures forall i :: i in st.chosen ==> i < n
  {
    if n == 0 then LoopState({}, 0, false)
    else
      var st := After(rows, limits, n - 1);
      if st.stopped || Rejects(rows, limits, st, n - 1) then st else Take(rows, limits, st, n - 1)
  }

  function Selected(actions: seq<Action>, limits: Limits): seq<Action> {
    var rows := Scored(actions, limits);
    if limits.PerTaskOn() then Pick(rows, Indices(After(rows, limits, |rows|).chosen, |rows|))
    else if limits.budget.Some? then Upto(rows, limits.budget.value)
    else rows
  }

  // ----- What is promised -----

  /** Of one score and margin. */
  function Ranked(score: real, margin: real): Action -> bool { (a: Action) => a.score == score && a.margin == margin }

  /** The actions that reach the minimum score, higher score first, then larger margin, equal ones in the
      order of the input. */
  ghost predicate ScoredFrom(actions: seq<Action>, limits: Limits, rows: seq<Action>) {
    && (forall i, j :: 0 <= i < j < |rows| ==>
          rows[i].score > rows[j].score || (rows[i].score == rows[j].score && rows[i].margin >= rows[j].margin))
    && forall score, margin ::
         Sorting.Where(rows, Ranked(score, margin))
         == if limits.minScore.None? || score >= limits.minScore.value
            then Sorting.Where(actions, Ranked(score, margin)) else []
  }

  /** A task id that is subject to the per-task limit. */
  predicate NamesTask(task: Option<string>) { task.Some? && task.value != "" && task.value != "__global__" }

  /** The positions of S below n with that task id. */
  function OfTask(rows: seq<Action>, S: set<nat>, task: Option<string>, n: nat): set<nat> {
    set i | i in S && i < n && i < |rows| && rows[i].task == task
  }

  /** Among the scored rows, S is within the budget and within the limit of every task; rows without a task,
      with an empty one or with the global one are bounded by the budget alone. */
  ghost predicate Fits(rows: seq<Action>, limits: Limits, S: set<nat>) {
    && (forall i :: i in S ==> i < |rows|)
    && (limits.budget.Some? ==> S == {} || |S| <= limits.budget.value)
    && (limits.perTask.Some? && limits.perTask.value > 0 ==>
          forall task :: NamesTask(task) ==> |OfTask(rows, S, task, |rows|)| <= limits.perTask.value)
  }

  /** Row i finds the budget and its own task's limit not used up by the chosen rows before it. */
  ghost predicate Open(rows: seq<Action>, limits: Limits, S: set<nat>, i: nat)
    requires i < |rows|
  {
    && (limits.budget.Some? ==> |set j | j in S && j < i| < limits.budget.value)
    && (limits.perTask.Some? && limits.perTask.value > 0 && NamesTask(rows[i].task) ==>
          |OfTask(rows, S, rows[i].task, i)| < limits.perTask.value)
  }

  /** The first row that names a task. */
  ghost predicate FirstNamed(rows: seq<Action>, i: nat)
    requires i < |rows|
  {
    NamesTask(rows[i].task) && forall j :: 0 <= j < i ==> !NamesTask(rows[j].task)
  }

  /** What is taken when the budget is zero or negative: with a per-task limit the first row that names a
      task, without one the rows a slice with that bound keeps. */
  ghost predicate Leftover(rows: seq<Action>, limits: Limits, S: set<nat>)
    requires limits.budget.Some?
  {
    forall i :: 0 <= i < |rows| ==>
      (i in S <==>
        if limits.perTask.Some? && limits.perTask.value > 0 then FirstNamed(rows, i)
        else limits.budget.value < 0 && i < |rows| + limits.budget.value)
  }

  /** The selection is made of the rows at the positions of S. With a usable budget these fit, and a row is
      taken exactly when it is open. */
  ghost predicate IsSelection(actions: seq<Action>, limits: Limits, rows: seq<Action>, S: set<nat>,
                              selected: seq<Action>)
  {
    && ScoredFrom(actions, limits, rows) && PickedAt(rows, S, selected)
    && (limits.budget.None? || limits.budget.value >= 1 ==>
          Fits(rows, limits, S) && forall i :: 0 <= i < |rows| ==> (i in S <==> Open(rows, limits, S, i)))
    && (limits.budget.Some? && limits.budget.value <= 0 ==> Leftover(rows, limits, S))
  }

  // ----- The loop -----

  ghost predicate Progress(rows: seq<Action>, limits: Limits, n: nat, selected: seq<Action>,
                           counts: map<string, nat>, globalCount: nat)
  {
    && n <= |rows| && limits.PerTaskOn()
    && var st := After(rows, limits, n);
       && selected == Pick(rows, Indices(st.chosen, n)) && |selected| == |st.chosen|
       && globalCount == st.globals
       && Counts(counts, st.chosen, Keys(rows), {GLOBAL})
  }

  method ScheduleActions(actions: seq<Action>, limits: Limits) returns (selected: seq<Action>)
    ensures selected == Selected(actions, limits)
    ensures exists rows, S :: IsSelection(actions, limits, rows, S, selected)
  {
    hide Progress, Selected, IsSelection;
    SelectedMeaning(actions, limits);
    var rows := Scored(actions, limits);
    SelectedCases(actions, limits);
    if !limits.PerTaskOn() {
      selected := if limits.budget.Some? then Upto(rows, limits.budget.value) else rows;
      return;
    }
    selected := [];
    var counts: map<string, nat>, globalCount: nat := map[], 0;
    var i := 0;
    ProgressStart(rows, limits);
    while i < |rows|
      invariant i <= |rows| && Progress(rows, limits, i, selected, counts, globalCount)
      invariant !After(rows, limits, i).stopped
    {
      var key := TaskKey(rows[i]);
      var used := if key in counts then counts[key] else 0;
      ProgressStep(rows, limits, i, selected, counts, globalCount, used);
      i := i + 1;
      if key == GLOBAL {
        if limits.budget.Some? && globalCount >= limits.budget.value { continue; }
        globalCount := globalCount + 1;
      } else {
        if used >= limits.perTask.value { continue; }
        counts := counts[key := used + 1];
      }
      selected := selected + [rows[i - 1]];
      if limits.budget.Some? && |selected| >= limits.budget.value {
        ProgressStop(rows, limits, i, selected, counts, globalCount);
        return;
      }
    }
    ProgressDone(rows, limits, selected, counts, globalCount);
  }

  lemma SelectedCases(actions: seq<Action>, limits: Limits)
    ensures var rows := Scored(actions, limits);
      Selected(actions, limits)
      == if limits.PerTaskOn() then Pick(rows, Indices(After(rows, limits, |rows|).chosen, |rows|))
         else if limits.budget.Some? then Upto(rows, limits.budget.value) else rows
  {
  }

  lemma ProgressStart(rows: seq<Action>, limits: Limits)
    requires limits.PerTaskOn()
    ensures Progress(rows, limits, 0, [], map[], 0) && !After(rows, limits, 0).stopped
  {
    assert forall t :: Group({}, Keys(rows), t) == {};
  }

  lemma ProgressDone(rows: seq<Action>, limits: Limits, selected: seq<Action>,
                     counts: map<string, nat>, globalCount: nat)
    requires Progress(rows, limits, |rows|, selected, counts, globalCount)
    ensures selected == Pick(rows, Indices(After(rows, limits, |rows|).chosen, |rows|))
  {
  }

  lemma {:induction false} StoppedStays(rows: seq<Action>, limits: Limits, i: nat, n: nat)
    requires i <= n <= |rows| && limits.PerTaskOn() && After(rows, limits, i).stopped
    ensures After(rows, limits, n) == After(rows, limits, i)
  {
    hide Rejects, Take;
    if i == n {
    } else {
      StoppedStays(rows, limits, i, n - 1);
    }
  }

  lemma ProgressStop(rows: seq<Action>, limits: Limits, n: nat, selected: seq<Action>,
                     counts: map<string, nat>, globalCount: nat)
    requires Progress(rows, limits, n, selected, counts, globalCount) && After(rows, limits, n).stopped
    ensures selected == Pick(rows, Indices(After(rows, limits, |rows|).chosen, |rows|))
  {
    hide Counts, Rejects, Take, Indices, Pick;
    StoppedStays(rows, limits, n, |rows|);
    IndicesStop(After(rows, limits, n).chosen, n, |rows|);
  }

  lemma ProgressStep(rows: seq<Action>, limits: Limits, n: nat, selected: seq<Action>,
                     counts: map<string, nat>, globalCount: nat, used: nat)
    requires Progress(rows, limits, n, selected, counts, globalCount)
    requires n < |rows| && !After(rows, limits, n).stopped
    requires used == (if TaskKey(rows[n]) in counts then counts[TaskKey(rows[n])] else 0)
    ensures var key := TaskKey(rows[n]);
            var st := After(rows, limits, n + 1);
            if (if key == GLOBAL then limits.budget.Some? && globalCount >= limits.budget.value
                else used >= limits.perTask.value)
            then Progress(rows, limits, n + 1, selected, counts, globalCount) && !st.stopped
            else && Progress(rows, limits, n + 1, selected + [rows[n]],
                             if key == GLOBAL then counts else counts[key := used + 1],
                             if key == GLOBAL then globalCount + 1 else globalCount)
                 && (st.stopped <==> limits.budget.Some? && |selected| + 1 >= limits.budget.value)
  {
    hide Group, Counts, Pick, Indices, Keys, After, TaskKey;
    var st, key := After(rows, limits, n), TaskKey(rows[n]);
    AfterStep(rows, limits, n + 1);
    CountsRead(counts, st.chosen, Keys(rows), {GLOBAL}, key, used);
    KeyAt(rows, n);
    IndicesStop(st.chosen, n, n + 1);
    CountsGrow(counts, st.chosen, Keys(rows), {GLOBAL}, n, used);
    IndicesGrow(st.chosen, n);
    PickGrow(rows, Indices(st.chosen, n), n);
  }

  lemma KeyAt(rows: seq<Action>, i: nat)
    requires i < |rows|
    ensures Keys(rows)[i] == TaskKey(rows[i])
  {
  }

  // ----- What the selection is compared with -----

  /** A set of scored positions within the budget and the per-task limit; global rows are only
      bounded by the budget. */
  ghost predicate Feasible(rows: seq<Action>, limits: Limits, S: set<nat>) {
    && (forall i :: i in S ==> i < |rows|)
    && (limits.budget.Some? ==> |S| <= CapOf(limits.budget.value))
    && (limits.PerTaskOn() ==>
          forall t :: t != GLOBAL ==> |Group(S, Keys(rows), t)| <= limits.perTask.value)
  }

  /** A positive budget, or none. */
  predicate BudgetUsable(limits: Limits) { limits.budget.Some? ==> limits.budget.value >= 1 }

  /** With a usable budget the loop breaks exactly when the budget is full, so the separate
      count of global rows never rejects anything. */
  lemma {:induction false} BudgetInvariant(rows: seq<Action>, limits: Limits, n: nat)
    requires n <= |rows| && limits.PerTaskOn() && BudgetUsable(limits)
    ensures var st := After(rows, limits, n);
            && st.globals <= |st.chosen|
            && (limits.budget.Some? ==> |st.chosen| <= limits.budget.value)
            && (st.stopped <==> limits.budget.Some? && |st.chosen| == limits.budget.value)
  {
    hide After, Rejects;
    AfterBase(rows, limits);
    if n == 0 {
    } else {
      BudgetInvariant(rows, limits, n - 1);
      AfterStep(rows, limits, n);
      assert n - 1 !in After(rows, limits, n - 1).chosen;
    }
  }

  lemma AfterStep(rows: seq<Action>, limits: Limits, n: nat)
    requires 0 < n <= |rows| && limits.PerTaskOn()
    ensures var st := After(rows, limits, n - 1);
            After(rows, limits, n)
            == if st.stopped || Rejects(rows, limits, st, n - 1) then st else Take(rows, limits, st, n - 1)
  {
    hide Rejects, Take;
  }

  lemma {:induction false} AfterMonotone(rows: seq<Action>, limits: Limits, i: nat, n: nat)
    requires i <= n <= |rows| && limits.PerTaskOn()
    ensures After(rows, limits, i).chosen == Below(After(rows, limits, n).chosen, i)
    ensures After(rows, limits, i).stopped ==> After(rows, limits, n).stopped
  {
    hide Rejects, After;
    if i == n {
    } else {
      AfterMonotone(rows, limits, i, n - 1);
      AfterStep(rows, limits, n);
    }
  }

  /** A row passed over before the budget filled up belongs to a task that is, and stays, at its limit. */
  lemma RejectedIsFull(rows: seq<Action>, limits: Limits, i: nat, n: nat)
    requires i < n <= |rows| && limits.PerTaskOn() && BudgetUsable(limits)
    requires i !in After(rows, limits, n).chosen && !After(rows, limits, n).stopped
    ensures TaskKey(rows[i]) != GLOBAL
    ensures |Group(After(rows, limits, n).chosen, Keys(rows), TaskKey(rows[i]))| >= limits.perTask.value
  {
    hide After;
    var st, end := After(rows, limits, i), After(rows, limits, n);
    AfterMonotone(rows, limits, i, n);
    RejectedThen(rows, limits, i, n);
    BudgetInvariant(rows, limits, i);
    SubsetSize(Group(st.chosen, Keys(rows), TaskKey(rows[i])), Group(end.chosen, Keys(rows), TaskKey(rows[i])));
  }

  lemma RejectedThen(rows: seq<Action>, limits: Limits, i: nat, n: nat)
    requires i < n <= |rows| && limits.PerTaskOn()
    requires i !in After(rows, limits, n).chosen && !After(rows, limits, n).stopped
    ensures !After(rows, limits, i).stopped && Rejects(rows, limits, After(rows, limits, i), i)
  {
    hide Rejects;
    AfterMonotone(rows, limits, i, n);
    AfterMonotone(rows, limits, i + 1, n);
    assert i !in After(rows, limits, i + 1).chosen;
  }

  lemma FullTasksCharge(rows: seq<Action>, limits: Limits, S: set<nat>, A: set<nat>, G: set<nat>, T: set<string>)
    requires limits.PerTaskOn() && Feasible(rows, limits, S) && A <= S
    requires forall t :: t in T ==> t != GLOBAL && |Group(G, Keys(rows), t)| >= limits.perTask.value
    ensures |Grouped(A, Keys(rows), T)| <= |Grouped(G, Keys(rows), T)|
  {
    forall t | t in T ensures |Group(A, Keys(rows), t)| <= |Group(G, Keys(rows), t)| {
      SubsetSize(Group(A, Keys(rows), t), Group(S, Keys(rows), t));
    }
    GroupwiseLe(A, G, Keys(rows), T);
  }

  lemma PrefixCharge(rows: seq<Action>, limits: Limits, S: set<nat>, n: nat)
    requires n <= |rows| && limits.PerTaskOn() && BudgetUsable(limits) && Feasible(rows, limits, S)
    ensures |Below(S, n)| <= |After(rows, limits, n).chosen|
  {
    hide After;
    var st, A := After(rows, limits, n), Below(S, n);
    SubsetSize(A, S);
    BudgetInvariant(rows, limits, n);
    if !st.stopped {
      var T := set i | i in A && i < |rows| && i !in st.chosen :: TaskKey(rows[i]);
      forall i | i in A && i !in st.chosen
        ensures TaskKey(rows[i]) != GLOBAL && |Group(st.chosen, Keys(rows), TaskKey(rows[i]))| >= limits.perTask.value
      {
        RejectedIsFull(rows, limits, i, n);
      }
      FullTasksCharge(rows, limits, S, A, st.chosen, T);
      SetCharge(A, st.chosen, Grouped(A, Keys(rows), T), {}, Grouped(st.chosen, Keys(rows), T), {});
    }
  }

  lemma TakeFeasible(rows: seq<Action>, limits: Limits, st: LoopState, i: nat)
    requires i < |rows| && limits.PerTaskOn() && i !in st.chosen && !Rejects(rows, limits, st, i)
    requires Feasible(rows, limits, st.chosen)
    requires limits.budget.Some? ==> |st.chosen + {i}| <= limits.budget.value
    ensures Feasible(rows, limits, st.chosen + {i})
  {
    hide Group, Keys;
    KeyAt(rows, i);
    forall t | t != GLOBAL ensures |Group(st.chosen + {i}, Keys(rows), t)| <= limits.perTask.value {
      CapKept(st.chosen, Keys(rows), limits.perTask.value, i, t);
    }
  }

  lemma EmptyFeasible(rows: seq<Action>, limits: Limits)
    ensures Feasible(rows, limits, {})
  {
    assert forall t :: Group({}, Keys(rows), t) == {};
  }

  lemma {:induction false} AfterFeasible(rows: seq<Action>, limits: Limits, n: nat)
    requires n <= |rows| && limits.PerTaskOn() && BudgetUsable(limits)
    ensures Feasible(rows, limits, After(rows, limits, n).chosen)
  {
    hide Feasible, Rejects, After;
    AfterBase(rows, limits);
    if n == 0 {
      EmptyFeasible(rows, limits);
    } else {
      AfterFeasible(rows, limits, n - 1);
      AfterStep(rows, limits, n);
      BudgetInvariant(rows, limits, n);
      var st := After(rows, limits, n - 1);
      if !st.stopped && !Rejects(rows, limits, st, n - 1) { TakeFeasible(rows, limits, st, n - 1); }
    }
  }

  lemma AfterBase(rows: seq<Action>, limits: Limits)
    requires limits.PerTaskOn()
    ensures After(rows, limits, 0) == LoopState({}, 0, false)
  {
  }

  lemma SelectionCharges(rows: seq<Action>, limits: Limits, S: set<nat>)
    requires limits.PerTaskOn() && BudgetUsable(limits) && Feasible(rows, limits, S)
    ensures Charged(S, After(rows, limits, |rows|).chosen, 1, |rows|)
  {
    forall k: nat | k <= |rows|
      ensures |Below(S, k)| <= 1 * |Below(After(rows, limits, |rows|).chosen, k)|
    {
      PrefixCharge(rows, limits, S, k);
      AfterMonotone(rows, limits, k, |rows|);
    }
  }

  // ----- The scored list -----

  lemma AtLeastStep(row: Action, rest: seq<Action>, bar: real)
    ensures AtLeast([row] + rest, bar) ==
      if row.score >= bar then [row] + AtLeast(rest, bar) else AtLeast(rest, bar)
  {
    assert ([row] + rest)[1..] == rest;
    assert [] + AtLeast(rest, bar) == AtLeast(rest, bar);
  }

  lemma SortedRest(row: Action, rest: seq<Action>)
    requires Sorting.SortedBy([row] + rest, Better)
    ensures Sorting.SortedBy(rest, Better) && forall a :: a in rest ==> Better(row, a)
  {
    hide Better;
    var rows := [row] + rest;
    forall i, j | 0 <= i < j < |rest| ensures Better(rest[i], rest[j]) {
      assert rows[i + 1] == rest[i] && rows[j + 1] == rest[j];
    }
    forall a | a in rest ensures Better(row, a) {
      var m :| 0 <= m < |rest| && rest[m] == a;
      assert rows[0] == row && rows[m + 1] == a;
    }
  }

  lemma {:induction false} AtLeastKeeps(rows: seq<Action>, bar: real)
    requires Sorting.SortedBy(rows, Better)
    ensures Sorting.SortedBy(AtLeast(rows, bar), Better)
    ensures forall a :: a in rows && a.score >= bar ==> a in AtLeast(rows, bar)
  {
    if rows == [] {
    } else {
      var row, rest := rows[0], rows[1..];
      assert rows == [row] + rest;
      SortedRest(row, rest);
      AtLeastKeeps(rest, bar);
      AtLeastStep(row, rest, bar);
      hide Better, AtLeast;
    }
  }

  lemma ScoredIsSorted(actions: seq<Action>, limits: Limits)
    ensures Sorting.SortedBy(Scored(actions, limits), Better)
  {
    hide Better;
    BetterIsPreorder();
    Sorting.SortIsSorted(actions, Better);
    if limits.minScore.Some? { AtLeastKeeps(Sorting.Sort(actions, Better), limits.minScore.value); }
  }

  lemma BetterIsPreorder()
    ensures Sorting.TotalPreorder(Better)
  {
  }

  // ----- Dominance -----

  lemma {:induction false} IndicesSpread(S: set<nat>, n: nat, k: nat)
    requires k < |Indices(S, n)|
    ensures k <= Indices(S, n)[k]
    decreases k
  {
    if k == 0 {
    } else {
      IndicesSpread(S, n, k - 1);
    }
  }

  lemma IndicesSize(S: set<nat>, n: nat)
    requires forall i :: i in S ==> i < n
    ensures |Indices(S, n)| == |S|
  {
    IndicesCount(S, n);
    BelowAll(S, n);
  }

  /** Where the selected list takes its k-th entry from. */
  function Source(actions: seq<Action>, limits: Limits, k: nat): nat {
    var rows := Scored(actions, limits);
    if limits.PerTaskOn() then
      var at := Indices(After(rows, limits, |rows|).chosen, |rows|);
      if k < |at| then at[k] else 0
    else k
  }

  lemma SourceDominates(actions: seq<Action>, limits: Limits, S: set<nat>, k: nat)
    requires BudgetUsable(limits) && Feasible(Scored(actions, limits), limits, S)
    requires k < |Indices(S, |Scored(actions, limits)|)|
    ensures var rows := Scored(actions, limits);
            && k < |Selected(actions, limits)|
            && Source(actions, limits, k) <= Indices(S, |rows|)[k]
            && Selected(actions, limits)[k] == rows[Source(actions, limits, k)]
  {
    var rows := Scored(actions, limits);
    hide Scored;
    IndicesSize(S, |rows|);
    if limits.PerTaskOn() {
      SelectionCharges(rows, limits, S);
      ChargedPositions(S, After(rows, limits, |rows|).chosen, |rows|);
    } else {
      IndicesSpread(S, |rows|, k);
    }
  }

  /** For a usable budget the selection dominates every feasible set of scored rows: it is at least
      as large, and its k-th entry scores at least the k-th best of that set. */
  lemma SelectionDominates(actions: seq<Action>, limits: Limits, S: set<nat>)
    requires BudgetUsable(limits) && Feasible(Scored(actions, limits), limits, S)
    ensures var rows, best := Scored(actions, limits), Indices(S, |Scored(actions, limits)|);
            && |S| == |best| <= |Selected(actions, limits)|
            && forall k :: 0 <= k < |best| ==> Selected(actions, limits)[k].score >= rows[best[k]].score
  {
    var rows := Scored(actions, limits);
    var best := Indices(S, |rows|);
    hide Scored, Selected, Feasible, Source;
    assert |best| == |S| by { FeasibleSize(rows, limits, S); }
    ScoredIsSorted(actions, limits);
    if |best| > 0 { SourceDominates(actions, limits, S, |best| - 1); }
    forall k | 0 <= k < |best|
      ensures k < |Selected(actions, limits)| && Selected(actions, limits)[k].score >= rows[best[k]].score
    {
      SourceDominates(actions, limits, S, k);
      EarlierIsBetter(rows, Source(actions, limits, k), best[k]);
    }
  }

  lemma FeasibleSize(rows: seq<Action>, limits: Limits, S: set<nat>)
    requires Feasible(rows, limits, S)
    ensures |Indices(S, |rows|)| == |S|
  {
    IndicesSize(S, |rows|);
  }

  lemma EarlierIsBetter(rows: seq<Action>, i: nat, j: nat)
    requires Sorting.SortedBy(rows, Better) && i <= j < |rows|
    ensures rows[i].score >= rows[j].score
  {
    if i < j { assert Better(rows[i], rows[j]); }
  }

  // ----- In terms of the rows themselves -----

  lemma {:induction false} AtLeastWhere(rows: seq<Action>, bar: real, score: real, margin: real)
    ensures Sorting.Where(AtLeast(rows, bar), Ranked(score, margin))
         == if score >= bar then Sorting.Where(rows, Ranked(score, margin)) else []
  {
    hide Sorting.Where;
    if rows == [] {
      Sorting.WhereNone(Ranked(score, margin));
    } else {
      var row, rest := rows[0], rows[1..];
      AtLeastWhere(rest, bar, score, margin);
      assert rows == [row] + rest;
      AtLeastStep(row, rest, bar);
      hide AtLeast;
      Sorting.WhereCons(row, AtLeast(rest, bar), Ranked(score, margin));
      Sorting.WhereCons(row, rest, Ranked(score, margin));
    }
  }

  lemma ScoredMeaning(actions: seq<Action>, limits: Limits)
    ensures ScoredFrom(actions, limits, Scored(actions, limits))
  {
    var rows := Scored(actions, limits);
    ScoredIsSorted(actions, limits);
    forall i, j | 0 <= i < j < |rows|
      ensures rows[i].score > rows[j].score || (rows[i].score == rows[j].score && rows[i].margin >= rows[j].margin)
    {
      assert Better(rows[i], rows[j]);
    }
    forall score, margin
      ensures Sorting.Where(rows, Ranked(score, margin))
           == if limits.minScore.None? || score >= limits.minScore.value
              then Sorting.Where(actions, Ranked(score, margin)) else []
    {
      Sorting.SortIsStable(actions, Better, Ranked(score, margin));
      if limits.minScore.Some? {
        AtLeastWhere(Sorting.Sort(actions, Better), limits.minScore.value, score, margin);
      }
    }
  }

  lemma GroupIsTask(rows: seq<Action>, S: set<nat>, task: Option<string>)
    requires NamesTask(task)
    ensures task.value != GLOBAL && Group(S, Keys(rows), task.value) == OfTask(rows, S, task, |rows|)
  {
  }

  lemma EmptyGroup(rows: seq<Action>, S: set<nat>)
    ensures Group(S, Keys(rows), "") == {}
  {
  }

  lemma FitsIsFeasible(rows: seq<Action>, limits: Limits, S: set<nat>)
    ensures Fits(rows, limits, S) <==> Feasible(rows, limits, S)
  {
    hide Group, OfTask, Keys;
    EmptyGroup(rows, S);
    forall t: string | t != GLOBAL && t != ""
      ensures Group(S, Keys(rows), t) == OfTask(rows, S, Some(t), |rows|)
    {
      GroupIsTask(rows, S, Some(t));
    }
    if Feasible(rows, limits, S) && limits.PerTaskOn() {
      forall task | NamesTask(task) ensures |OfTask(rows, S, task, |rows|)| <= limits.perTask.value {
        GroupIsTask(rows, S, task);
      }
    }
    if Fits(rows, limits, S) && limits.PerTaskOn() {
      forall t | t != GLOBAL ensures |Group(S, Keys(rows), t)| <= limits.perTask.value {
        if t != "" {
          assert NamesTask(Some(t));
        }
      }
    }
  }

  lemma BelowTask(rows: seq<Action>, S: set<nat>, i: nat)
    requires i < |rows| && NamesTask(rows[i].task)
    ensures Group(Below(S, i), Keys(rows), TaskKey(rows[i])) == OfTask(rows, S, rows[i].task, i)
    ensures TaskKey(rows[i]) != GLOBAL
  {
  }

  /** The loop takes a row exactly when it is open. */
  lemma TakenIffOpen(rows: seq<Action>, limits: Limits, i: nat)
    requires i < |rows| && limits.PerTaskOn() && BudgetUsable(limits)
    ensures var S := After(rows, limits, |rows|).chosen; i in S <==> Open(rows, limits, S, i)
  {
    hide After, Group, OfTask, Keys, TaskKey;
    var S, st := After(rows, limits, |rows|).chosen, After(rows, limits, i);
    AfterMonotone(rows, limits, i, |rows|);
    AfterMonotone(rows, limits, i + 1, |rows|);
    AfterStep(rows, limits, i + 1);
    BudgetInvariant(rows, limits, i);
    assert Below(S, i) == set j | j in S && j < i;
    assert i in Below(S, i + 1) <==> i in S;
    if NamesTask(rows[i].task) {
      BelowTask(rows, S, i);
    } else {
      GlobalKey(rows[i]);
    }
  }

  lemma GlobalKey(a: Action)
    ensures TaskKey(a) == GLOBAL <==> !NamesTask(a.task)
  {
  }

  function FirstOf(n: nat): (S: set<nat>)
    ensures forall i: nat :: i in S <==> i < n
  {
    if n == 0 then {} else FirstOf(n - 1) + {n - 1}
  }

  lemma {:induction false} FirstSize(n: nat)
    ensures |FirstOf(n)| == n
  {
    if n == 0 {
    } else {
      FirstSize(n - 1);
    }
  }

  /** The first n rows, as positions. */
  lemma PrefixIsAt(rows: seq<Action>, n: nat)
    requires n <= |rows|
    ensures PickedAt(rows, FirstOf(n), rows[..n])
  {
    var at := seq(n, k requires 0 <= k < n => k);
    assert |at| == |rows[..n]|;
    forall i: nat | i < n ensures i in at {
      assert at[i] == i;
    }
  }

  lemma PrefixIsOpen(rows: seq<Action>, limits: Limits, n: nat, i: nat)
    requires !limits.PerTaskOn() && BudgetUsable(limits) && i < |rows|
    requires n == if limits.budget.Some? && limits.budget.value < |rows| then limits.budget.value else |rows|
    ensures i in FirstOf(n) <==> Open(rows, limits, FirstOf(n), i)
    ensures Fits(rows, limits, FirstOf(n))
  {
    FirstSize(n);
    FirstSize(if i < n then i else n);
    assert (set j | j in FirstOf(n) && j < i) == FirstOf(if i < n then i else n);
  }

  lemma LoopMeaning(actions: seq<Action>, limits: Limits)
    requires limits.PerTaskOn()
    ensures var rows := Scored(actions, limits);
      IsSelection(actions, limits, rows, After(rows, limits, |rows|).chosen, Selected(actions, limits))
  {
    hide ScoredFrom, PickedAt, Fits, Open, After, Scored, Leftover;
    var rows := Scored(actions, limits);
    ScoredMeaning(actions, limits);
    var S := After(rows, limits, |rows|).chosen;
    PickIsAt(rows, S);
    if BudgetUsable(limits) {
      AfterFeasible(rows, limits, |rows|);
      FitsIsFeasible(rows, limits, S);
      forall i | 0 <= i < |rows| ensures i in S <==> Open(rows, limits, S, i) {
        TakenIffOpen(rows, limits, i);
      }
    } else {
      EmptyBudgetLeftover(rows, limits);
    }
  }

  lemma SliceIsPrefix(actions: seq<Action>, limits: Limits)
    requires !limits.PerTaskOn()
    ensures var rows, selected := Scored(actions, limits), Selected(actions, limits);
      && selected <= rows && selected == (if limits.budget.Some? then Upto(rows, limits.budget.value) else rows)
      && (BudgetUsable(limits) ==>
            |selected| == if limits.budget.Some? && limits.budget.value < |rows| then limits.budget.value else |rows|)
  {
    hide Scored;
  }

  lemma SliceMeaning(actions: seq<Action>, limits: Limits)
    requires !limits.PerTaskOn()
    ensures var rows, selected := Scored(actions, limits), Selected(actions, limits);
      IsSelection(actions, limits, rows, FirstOf(|selected|), selected)
  {
    hide ScoredFrom, PickedAt, Fits, Open, Scored, Leftover, Selected;
    var rows, selected := Scored(actions, limits), Selected(actions, limits);
    var n := |selected|;
    ScoredMeaning(actions, limits);
    SliceIsPrefix(actions, limits);
    assert selected == rows[..n];
    PrefixIsAt(rows, n);
    if BudgetUsable(limits) {
      PrefixFits(rows, limits, n);
      forall i | 0 <= i < |rows| ensures i in FirstOf(n) <==> Open(rows, limits, FirstOf(n), i) {
        PrefixIsOpen(rows, limits, n, i);
      }
    } else {
      SliceLeftover(rows, limits);
    }
  }

  /** What the selection is, in terms of the rows. */
  lemma SelectedMeaning(actions: seq<Action>, limits: Limits)
    ensures exists rows, S :: IsSelection(actions, limits, rows, S, Selected(actions, limits))
  {
    hide IsSelection, After, Scored, Selected;
    if limits.PerTaskOn() {
      LoopMeaning(actions, limits);
    } else {
      SliceMeaning(actions, limits);
    }
  }

  lemma SliceLeftover(rows: seq<Action>, limits: Limits)
    requires !limits.PerTaskOn() && limits.budget.Some? && limits.budget.value <= 0
    ensures Leftover(rows, limits, FirstOf(|Upto(rows, limits.budget.value)|))
  {
  }

  lemma EmptyBudgetLeftover(rows: seq<Action>, limits: Limits)
    requires limits.PerTaskOn() && limits.budget.Some? && limits.budget.value <= 0
    ensures Leftover(rows, limits, After(rows, limits, |rows|).chosen)
  {
    hide After, TaskKey;
    EmptyBudgetRun(rows, limits, |rows|);
    forall i | 0 <= i < |rows| ensures TaskKey(rows[i]) == GLOBAL <==> !NamesTask(rows[i].task) {
      GlobalKey(rows[i]);
    }
    var S := After(rows, limits, |rows|).chosen;
    forall i: nat | i < |rows| ensures i in S <==> FirstNamed(rows, i) {
      if S != {} {
        var k: nat :| FirstTaskRow(rows, k) && S == {k};
      }
    }
  }

  lemma PrefixFits(rows: seq<Action>, limits: Limits, n: nat)
    requires !limits.PerTaskOn() && BudgetUsable(limits)
    requires n == if limits.budget.Some? && limits.budget.value < |rows| then limits.budget.value else |rows|
    ensures Fits(rows, limits, FirstOf(n))
  {
    FirstSize(n);
  }

  /** A scored row is left out only when the budget is full or its own task is at its limit. */
  lemma LeftOutMeans(rows: seq<Action>, limits: Limits, S: set<nat>, i: nat)
    requires Fits(rows, limits, S) && i < |rows| && i !in S && !Open(rows, limits, S, i)
    ensures || (limits.budget.Some? && |S| >= limits.budget.value)
            || (limits.perTask.Some? && NamesTask(rows[i].task)
                && |OfTask(rows, S, rows[i].task, |rows|)| >= limits.perTask.value)
  {
    SubsetSize((set j | j in S && j < i), S);
    SubsetSize(OfTask(rows, S, rows[i].task, i), OfTask(rows, S, rows[i].task, |rows|));
  }

  /** For a usable budget no set of scored rows that fits is larger than the selection, or better at any
      rank: the k-th selected row scores at least the k-th best of that set. */
  lemma SelectionBeatsFitting(actions: seq<Action>, limits: Limits, S: set<nat>)
    requires BudgetUsable(limits) && Fits(Scored(actions, limits), limits, S)
    ensures var rows, best := Scored(actions, limits), Indices(S, |Scored(actions, limits)|);
            && |S| == |best| <= |Selected(actions, limits)|
            && forall k :: 0 <= k < |best| ==> Selected(actions, limits)[k].score >= rows[best[k]].score
  {
    FitsIsFeasible(Scored(actions, limits), limits, S);
    SelectionDominates(actions, limits, S);
    hide Scored, Selected, Fits, Feasible;
  }

  // ----- Without a usable budget -----

  predicate HasTaskRow(rows: seq<Action>, n: nat)
    requires n <= |rows|
  {
    exists i :: 0 <= i < n && TaskKey(rows[i]) != GLOBAL
  }

  ghost predicate FirstTaskRow(rows: seq<Action>, i: nat) {
    i < |rows| && TaskKey(rows[i]) != GLOBAL && !HasTaskRow(rows, i)
  }

  lemma EmptyBudgetRejects(rows: seq<Action>, limits: Limits, i: nat)
    requires i < |rows| && limits.PerTaskOn() && limits.budget.Some? && limits.budget.value <= 0
    ensures Rejects(rows, limits, LoopState({}, 0, false), i) <==> TaskKey(rows[i]) == GLOBAL
  {
    assert Group({}, Keys(rows), TaskKey(rows[i])) == {};
  }

  lemma HasTaskRowStep(rows: seq<Action>, n: nat)
    requires 0 < n <= |rows|
    ensures HasTaskRow(rows, n) <==> HasTaskRow(rows, n - 1) || TaskKey(rows[n - 1]) != GLOBAL
  {
  }

  /** At budget zero or below, the loop takes the first task-specific row, if there is one, and
      nothing else. */
  lemma {:induction false} EmptyBudgetRun(rows: seq<Action>, limits: Limits, n: nat)
    requires n <= |rows| && limits.PerTaskOn() && limits.budget.Some? && limits.budget.value <= 0
    ensures var st := After(rows, limits, n);
            && (st.stopped <==> HasTaskRow(rows, n))
            && (!st.stopped ==> st == LoopState({}, 0, false))
            && (st.stopped ==> exists i: nat :: i < n && FirstTaskRow(rows, i) && st.chosen == {i})
  {
    hide Rejects, After, HasTaskRow;
    AfterBase(rows, limits);
    if n == 0 {
      NoTaskRowYet(rows);
    } else {
      EmptyBudgetRun(rows, limits, n - 1);
      AfterStep(rows, limits, n);
      HasTaskRowStep(rows, n);
      EmptyBudgetRejects(rows, limits, n - 1);
      if !After(rows, limits, n - 1).stopped && TaskKey(rows[n - 1]) != GLOBAL {
        assert FirstTaskRow(rows, n - 1);
      }
    }
  }

  lemma NoTaskRowYet(rows: seq<Action>)
    ensures !HasTaskRow(rows, 0)
  {
  }

  /** The selection stays within its budget exactly when the budget is usable, or no scored row names
      a task (per-task limit on), or the list is too short for the negative slice to keep any row. */
  lemma BudgetKeptIff(actions: seq<Action>, limits: Limits)
    requires limits.budget.Some?
    ensures var rows, b := Scored(actions, limits), limits.budget.value;
            |Selected(actions, limits)| <= CapOf(b)
            <==> b >= 1 || if limits.PerTaskOn() then !HasTaskRow(rows, |rows|) else b == 0 || |rows| <= -b
  {
    var rows := Scored(actions, limits);
    hide Scored, After;
    if limits.PerTaskOn() {
      IndicesSize(After(rows, limits, |rows|).chosen, |rows|);
      if limits.budget.value >= 1 {
        BudgetInvariant(rows, limits, |rows|);
      } else {
        EmptyBudgetRun(rows, limits, |rows|);
      }
    }
  }
}
