/** Memoised kernel steps for contextual candidates (lean_rgc/kernel_context_cache.py): pre-context,
    premise and post-context steps share one cache keyed by state, action id, tactic and role. */
module KernelCache {
  import opened Options

  const IDENTITY_CONTEXT_ID := "__id__"

  datatype Role = Pre | Premise | Post

  datatype Status = Success | Partial | Fail | Timeout | Unsafe | ElabError | DryRun

  /** An action as found in candidate metadata; extra stands for every field the key leaves out. */
  datatype Chart = Chart(actionId: Option<string>, contextId: Option<string>, tactic: Option<string>, extra: string)

  datatype Kernel = Kernel(closed: bool, statusClosed: bool, goals: Option<nat>, stateId: string)

  datatype Record = Record(status: Status, persistentId: string, afterId: string, kernel: Option<Kernel>)

  /** What the server receives. */
  datatype SentAction = SentAction(actionId: string, tactic: string, extra: string)

  type Server = (string, SentAction, string) -> Record

  datatype Key = StepKey(parent: string, actionId: Option<string>, tactic: Option<string>, role: Role)
               | IdentityKey(parent: string, role: Role)

  datatype Transition = Transition(key: Key, role: Role, parent: string, actionId: string, tactic: string,
                                   stateId: string, status: Status, audit: Option<Record>,
                                   cacheHit: bool, identity: bool)

  function Text(o: Option<string>): string { if o.Some? then o.value else "" }

  predicate Blank(c: char) { c in {' ', '\t', '\n', '\r'} }

  function StripLeft(s: string): string {
    if s != "" && Blank(s[0]) then StripLeft(s[1..]) else s
  }

  function StripRight(s: string): string {
    if s != "" && Blank(s[|s| - 1]) then StripRight(s[..|s| - 1]) else s
  }

  predicate IsIdentity(c: Chart) {
    || OrElse(Text(c.actionId), Text(c.contextId)) == IDENTITY_CONTEXT_ID
    || StripRight(StripLeft(Text(c.tactic))) in {"", "skip", "all_goals skip"}
  }

  function RoleName(r: Role): string {
    match r case Pre => "pre" case Premise => "premise" case Post => "post"
  }

  function KeyOf(parent: string, c: Chart, role: Role): Key { StepKey(parent, c.actionId, c.tactic, role) }

  function Sent(c: Chart, role: Role): SentAction {
    var aid := OrElse(Text(c.actionId), RoleName(role));
    SentAction(if c.actionId.Some? then c.actionId.value else aid, Text(c.tactic), c.extra)
  }

  /** The state a step leads to: the first identifier the record offers, else the parent. */
  function AfterState(r: Record, parent: string): string {
    if r.persistentId != "" then r.persistentId
    else if r.afterId != "" then r.afterId
    else if r.kernel.Some? && r.kernel.value.stateId != "" then r.kernel.value.stateId
    else parent
  }

  predicate Succeeds(s: Status) { s in {Success, Partial, DryRun} }

  /** Whether no goals remain after a step; an identity step has no record and closes nothing. */
  predicate Closed(t: Transition) {
    t.audit.Some?
    && (t.audit.value.status == Success
        || (t.audit.value.kernel.Some?
            && var k := t.audit.value.kernel.value; k.closed || k.statusClosed || k.goals == Some(0)))
  }

  // ----- The uncached step and plan -----

  datatype Request = Request(task: string, parent: string, chart: Chart, role: Role)

  function AidOf(q: Request): string { OrElse(Text(q.chart.actionId), RoleName(q.role)) }

  function IdentityStep(q: Request): Transition {
    Transition(IdentityKey(q.parent, q.role), q.role, q.parent, AidOf(q), Text(q.chart.tactic), q.parent,
               Success, None, true, true)
  }

  function FreshStep(q: Request, rec: Record): Transition {
    Transition(KeyOf(q.parent, q.chart, q.role), q.role, q.parent, AidOf(q), Text(q.chart.tactic),
               AfterState(rec, q.parent), rec.status, Some(rec), false, false)
  }

  /** A step as the server alone would take it. */
  function DirectStep(server: Server, task: string, parent: string, c: Chart, role: Role): Transition {
    var q := Request(task, parent, c, role);
    if IsIdentity(c) then IdentityStep(q) else FreshStep(q, server(task, Sent(c, role), parent))
  }

  datatype Candidate = Candidate(pre: Option<Chart>, premise: Option<Chart>, post: Option<Chart>, baseline: bool)

  datatype Domain = DomainSuccess | PreFailed | PreClosed | PremiseMissing | PremiseFailed | PostFailed

  datatype Plan = Plan(steps: seq<Transition>, domain: Domain)

  const EMPTY_CHART := Chart(None, None, None, "")
  const IDENTITY_CHART := Chart(Some(IDENTITY_CONTEXT_ID), None, Some("skip"), "")

  /** A missing or empty context is replaced by the identity. */
  function OrIdentity(c: Option<Chart>): Chart {
    if c.Some? && c.value != EMPTY_CHART then c.value else IDENTITY_CHART
  }

  function CombinedStatus(p: Plan): Status
    requires p.steps != []
  {
    if p.domain == DomainSuccess then p.steps[|p.steps| - 1].status else Fail
  }

  function DirectPost(server: Server, task: string, steps: seq<Transition>, c: Candidate): Plan
    requires steps != []
  {
    var post := DirectStep(server, task, steps[|steps| - 1].stateId, OrIdentity(c.post), Post);
    Plan(steps + [post], if Succeeds(post.status) then DomainSuccess else PostFailed)
  }

  /** The plan of a candidate, every step taken directly. */
  function DirectPlan(server: Server, task: string, root: string, c: Candidate): (p: Plan)
    ensures 1 <= |p.steps| <= 3
  {
    var pre := DirectStep(server, task, root, OrIdentity(c.pre), Pre);
    if !Succeeds(pre.status) then Plan([pre], PreFailed)
    else if Closed(pre) && !c.baseline then Plan([pre], PreClosed)
    else if c.baseline then (if Closed(pre) then Plan([pre], DomainSuccess) else DirectPost(server, task, [pre], c))
    else if c.premise.None? then Plan([pre], PremiseMissing)
    else
      var premise := DirectStep(server, task, pre.stateId, c.premise.value, Premise);
      if !Succeeds(premise.status) then Plan([pre, premise], PremiseFailed)
      else if Closed(premise) then Plan([pre, premise], DomainSuccess)
      else DirectPost(server, task, [pre, premise], c)
  }

  /** Steps apart from the hit flag. */
  function Plain(t: Transition): Transition { t.(cacheHit := false) }

  function PlainSteps(s: seq<Transition>): (r: seq<Transition>)
    ensures |r| == |s|
  {
    seq(|s|, i requires 0 <= i < |s| => Plain(s[i]))
  }

  ghost predicate SamePlan(p: Plan, q: Plan) {
    && p.steps != [] && q.steps != []
    && p.domain == q.domain && PlainSteps(p.steps) == PlainSteps(q.steps) && CombinedStatus(p) == CombinedStatus(q)
  }

  lemma PlainAgrees(t: Transition, d: Transition)
    requires Plain(t) == Plain(d)
    ensures t.status == d.status && t.stateId == d.stateId && Closed(t) == Closed(d)
  {
    assert t.status == Plain(t).status && t.stateId == Plain(t).stateId && t.audit == Plain(t).audit;
    assert d.status == Plain(d).status && d.stateId == Plain(d).stateId && d.audit == Plain(d).audit;
  }

  /** Plans grow alike: equal-up-to-hit-flag steps in the same domain make the same plan. */
  lemma SameSteps(s: seq<Transition>, d: seq<Transition>, domain: Domain)
    requires |s| == |d| > 0 && forall i :: 0 <= i < |s| ==> Plain(s[i]) == Plain(d[i])
    ensures SamePlan(Plan(s, domain), Plan(d, domain))
  {
    assert PlainSteps(s) == PlainSteps(d);
    PlainAgrees(s[|s| - 1], d[|d| - 1]);
  }

  /** Every step after the first starts where the previous one ended, after that one succeeded and
      left goals open, in a later role. */
  ghost predicate Chained(steps: seq<Transition>) {
    forall i :: 1 <= i < |steps| ==> Linked(steps, i)
  }

  predicate Linked(steps: seq<Transition>, i: nat)
    requires 1 <= i < |steps|
  {
    && steps[i].parent == steps[i - 1].stateId
    && Succeeds(steps[i - 1].status) && !Closed(steps[i - 1])
    && steps[i].role != Pre && steps[i - 1].role != Post && steps[i].role != steps[i - 1].role
  }

  lemma StepShape(server: Server, task: string, parent: string, c: Chart, role: Role)
    ensures var t := DirectStep(server, task, parent, c, role); t.role == role && t.parent == parent
  {
    hide IsIdentity, AfterState;
  }

  lemma DirectPostShape(server: Server, task: string, steps: seq<Transition>, c: Candidate)
    requires steps != [] && Chained(steps)
    requires Succeeds(steps[|steps| - 1].status) && !Closed(steps[|steps| - 1]) && steps[|steps| - 1].role != Post
    ensures var p := DirectPost(server, task, steps, c);
      && Chained(p.steps) && p.steps[..|steps|] == steps && |p.steps| == |steps| + 1
      && p.steps[|steps|].role == Post
      && (p.domain == DomainSuccess <==> Succeeds(p.steps[|steps|].status))
  {
    hide DirectStep, Closed;
    var last := steps[|steps| - 1];
    StepShape(server, task, last.stateId, OrIdentity(c.post), Post);
    var p := DirectPost(server, task, steps, c);
    assert p.steps[|steps|].parent == last.stateId;
    forall i | 1 <= i < |p.steps| ensures Linked(p.steps, i) {
      if i < |steps| {
        assert Linked(steps, i);
      }
    }
  }

  /** Premise and post steps only ever run from a state that was reached successfully and still has
      goals; the plan counts as a success exactly when its last step succeeded in a role that may be last. */
  lemma PlanShape(server: Server, task: string, root: string, c: Candidate)
    ensures var p := DirectPlan(server, task, root, c);
      && Chained(p.steps) && p.steps[0].role == Pre && p.steps[0].parent == root
      && (p.domain == DomainSuccess <==> MayEnd(p.steps[|p.steps| - 1], c.baseline))
      && (Succeeds(CombinedStatus(p)) <==> p.domain == DomainSuccess)
  {
    hide DirectStep, DirectPost, Closed, Succeeds, Linked;
    assert Succeeds(DryRun) && !Succeeds(Fail) by { SucceedsCases(); }
    var pre := DirectStep(server, task, root, OrIdentity(c.pre), Pre);
    StepShape(server, task, root, OrIdentity(c.pre), Pre);
    if Succeeds(pre.status) && !Closed(pre) {
      if c.baseline {
        DirectPostShape(server, task, [pre], c);
      } else if c.premise.Some? {
        var premise := DirectStep(server, task, pre.stateId, c.premise.value, Premise);
        StepShape(server, task, pre.stateId, c.premise.value, Premise);
        PairLinked(pre, premise);
        if Succeeds(premise.status) && !Closed(premise) {
          DirectPostShape(server, task, [pre, premise], c);
        }
      }
    }
  }

  /** A plan is complete after a successful post step, or once the pre step of a baseline or the
      premise of a probe has closed every goal. */
  predicate MayEnd(t: Transition, baseline: bool) {
    Succeeds(t.status) && (t.role == Post || (Closed(t) && (baseline <==> t.role == Pre)))
  }

  lemma SucceedsCases()
    ensures Succeeds(DryRun) && !Succeeds(Fail)
  {
  }

  lemma PairLinked(pre: Transition, premise: Transition)
    requires premise.parent == pre.stateId && pre.role == Pre && premise.role == Premise
    requires Succeeds(pre.status) && !Closed(pre)
    ensures Chained([pre, premise])
  {
    hide Closed, Succeeds;
    assert Linked([pre, premise], 1);
  }

  // ----- What is promised -----

  ghost predicate AllBlank(s: string) { forall i :: 0 <= i < |s| ==> s[i] in {' ', '\t', '\n', '\r'} }

  /** The chart carries the identity's id, or its tactic, blanks around it apart, does nothing. */
  ghost predicate DoesNothing(c: Chart) {
    || (if c.actionId.Some? && c.actionId.value != "" then c.actionId.value == "__id__"
        else c.contextId == Some("__id__"))
    || exists a, core, b ::
         && AllBlank(a) && AllBlank(b) && core in {"", "skip", "all_goals skip"}
         && a + core + b == if c.tactic.Some? then c.tactic.value else ""
  }

  /** The state is the first identifier the record offers, or the parent. */
  ghost predicate LeadsTo(r: Record, parent: string, state: string) {
    var kernel := if r.kernel.Some? then r.kernel.value.stateId else "";
    && (r.persistentId != "" ==> state == r.persistentId)
    && (r.persistentId == "" && r.afterId != "" ==> state == r.afterId)
    && (r.persistentId == "" && r.afterId == "" && kernel != "" ==> state == kernel)
    && (r.persistentId == "" && r.afterId == "" && kernel == "" ==> state == parent)
  }

  /** The action sent for a chart: its own id and tactic, or the role's name and the empty text. */
  ghost predicate SentFor(c: Chart, role: Role, a: SentAction) {
    && a.extra == c.extra && a.tactic == (if c.tactic.Some? then c.tactic.value else "")
    && a.actionId == if c.actionId.Some? then c.actionId.value
                     else match role case Pre => "pre" case Premise => "premise" case Post => "post"
  }

  /** The step of a chart from a state: the identity stays there and succeeds, anything else is the server's
      answer to the action sent. */
  ghost predicate StepOf(server: Server, task: string, parent: string, c: Chart, role: Role, t: Transition) {
    && t.role == role && t.parent == parent && t.tactic == (if c.tactic.Some? then c.tactic.value else "")
    && t.actionId == (if c.actionId.Some? && c.actionId.value != "" then c.actionId.value
                      else match role case Pre => "pre" case Premise => "premise" case Post => "post")
    && if DoesNothing(c) then t.identity && t.audit == None && t.stateId == parent && t.status == Success
       else
         && !t.identity && t.audit.Some? && t.status == t.audit.value.status
         && (exists a :: SentFor(c, role, a) && t.audit.value == server(task, a, parent))
         && LeadsTo(t.audit.value, parent, t.stateId)
  }

  predicate Passed(t: Transition) { t.status == Success || t.status == Partial || t.status == DryRun }

  /** The record is a success, is marked closed or lists no goals. */
  predicate NoGoalsLeft(t: Transition) {
    t.audit.Some?
    && (|| t.audit.value.status == Success
        || (t.audit.value.kernel.Some?
            && (t.audit.value.kernel.value.closed || t.audit.value.kernel.value.statusClosed
                || t.audit.value.kernel.value.goals == Some(0))))
  }

  /** The context's own chart, or the identity when there is none. */
  ghost predicate ContextOf(own: Option<Chart>, c: Chart) {
    if own.Some? && own.value != Chart(None, None, None, "") then c == own.value
    else c == Chart(Some("__id__"), None, Some("skip"), "")
  }

  ghost predicate ContextStep(server: Server, task: string, parent: string, own: Option<Chart>, role: Role,
                              t: Transition)
  {
    exists c :: ContextOf(own, c) && StepOf(server, task, parent, c, role, t)
  }

  /** The post step ends the plan. */
  ghost predicate EndsInPost(server: Server, task: string, c: Candidate, p: Plan) {
    && |p.steps| >= 2
    && ContextStep(server, task, p.steps[|p.steps| - 2].stateId, c.post, Post, p.steps[|p.steps| - 1])
    && p.domain == if Passed(p.steps[|p.steps| - 1]) then DomainSuccess else PostFailed
  }

  /** The plan of a candidate: the pre step from the root, the premise from where that led unless the
      candidate is a baseline, the post step from there; it stops early when a step fails, when no goals are
      left, or when the premise is missing. */
  ghost predicate PlanOf(server: Server, task: string, root: string, c: Candidate, p: Plan) {
    && p.steps != [] && ContextStep(server, task, root, c.pre, Pre, p.steps[0])
    && CombinedStatus(p) == (if p.domain == DomainSuccess then p.steps[|p.steps| - 1].status else Fail)
    && var pre := p.steps[0];
       if !Passed(pre) then |p.steps| == 1 && p.domain == PreFailed
       else if NoGoalsLeft(pre) then |p.steps| == 1 && p.domain == if c.baseline then DomainSuccess else PreClosed
       else if c.baseline then |p.steps| == 2 && EndsInPost(server, task, c, p)
       else if c.premise.None? then |p.steps| == 1 && p.domain == PremiseMissing
       else
         && |p.steps| >= 2 && StepOf(server, task, pre.stateId, c.premise.value, Premise, p.steps[1])
         && var premise := p.steps[1];
            if !Passed(premise) then |p.steps| == 2 && p.domain == PremiseFailed
            else if NoGoalsLeft(premise) then |p.steps| == 2 && p.domain == DomainSuccess
            else |p.steps| == 3 && EndsInPost(server, task, c, p)
  }

  lemma {:induction false} StripLeftSplit(s: string) returns (a: string)
    ensures AllBlank(a) && s == a + StripLeft(s)
    ensures StripLeft(s) == "" || !Blank(StripLeft(s)[0])
  {
    if s == "" || !Blank(s[0]) {
      a := "";
    } else {
      var rest := StripLeftSplit(s[1..]);
      a := [s[0]] + rest;
      assert StripLeft(s) == StripLeft(s[1..]) && Blank(s[0]);
      hide StripLeft;
      assert s == [s[0]] + s[1..];
      assert [s[0]] + (rest + StripLeft(s[1..])) == a + StripLeft(s[1..]);
    }
  }

  lemma {:induction false} StripRightSplit(s: string) returns (b: string)
    ensures AllBlank(b) && s == StripRight(s) + b
    ensures StripRight(s) == "" || !Blank(StripRight(s)[|StripRight(s)| - 1])
  {
    if s == "" || !Blank(s[|s| - 1]) {
      b := "";
    } else {
      var rest := StripRightSplit(s[..|s| - 1]);
      b := rest + [s[|s| - 1]];
      assert StripRight(s) == StripRight(s[..|s| - 1]);
      hide StripRight;
      assert s == s[..|s| - 1] + [s[|s| - 1]];
    }
  }

  lemma {:induction false} StripLeftOff(a: string, x: string)
    requires AllBlank(a)
    ensures StripLeft(a + x) == StripLeft(x)
  {
    if a == "" {
      assert a + x == x;
    } else {
      StripLeftOff(a[1..], x);
      assert (a + x)[1..] == a[1..] + x;
    }
  }

  lemma {:induction false} StripRightOff(x: string, b: string)
    requires AllBlank(b)
    ensures StripRight(x + b) == StripRight(x)
  {
    if b == "" {
      assert x + b == x;
    } else {
      StripRightOff(x, b[..|b| - 1]);
      assert (x + b)[..|x + b| - 1] == x + b[..|b| - 1];
    }
  }

  /** Stripping removes exactly the blanks on both sides. */
  lemma StripMeaning(s: string, a: string, core: string, b: string)
    requires AllBlank(a) && AllBlank(b) && s == a + core + b
    requires core == "" || (!Blank(core[0]) && !Blank(core[|core| - 1]))
    ensures StripRight(StripLeft(s)) == core
  {
    assert s == a + (core + b);
    StripLeftOff(a, core + b);
    if core == "" {
      assert core + b == b && b + "" == b;
      StripLeftOff(b, "");
    } else {
      assert (core + b)[0] == core[0];
      StripRightOff(core, b);
    }
  }

  lemma IdentityMeaning(c: Chart)
    ensures IsIdentity(c) <==> DoesNothing(c)
  {
    hide StripLeft, StripRight;
    var s := Text(c.tactic);
    var a := StripLeftSplit(s);
    var b := StripRightSplit(StripLeft(s));
    assert s == a + StripRight(StripLeft(s)) + b;
    forall x, core, y | AllBlank(x) && AllBlank(y) && core in {"", "skip", "all_goals skip"} && x + core + y == s
      ensures StripRight(StripLeft(s)) == core
    {
      StripMeaning(s, x, core, y);
    }
    TextMeaning(c);
  }

  lemma TextMeaning(c: Chart)
    ensures OrElse(Text(c.actionId), Text(c.contextId)) == IDENTITY_CONTEXT_ID <==>
      if c.actionId.Some? && c.actionId.value != "" then c.actionId.value == "__id__" else c.contextId == Some("__id__")
  {
  }

  lemma StepMeaning(server: Server, task: string, parent: string, c: Chart, role: Role)
    ensures StepOf(server, task, parent, c, role, DirectStep(server, task, parent, c, role))
  {
    hide IsIdentity, DoesNothing;
    IdentityMeaning(c);
    assert SentFor(c, role, Sent(c, role));
  }

  lemma ContextMeaning(server: Server, task: string, parent: string, own: Option<Chart>, role: Role)
    ensures ContextStep(server, task, parent, own, role, DirectStep(server, task, parent, OrIdentity(own), role))
  {
    hide DirectStep, StepOf;
    StepMeaning(server, task, parent, OrIdentity(own), role);
    assert ContextOf(own, OrIdentity(own));
  }

  lemma ClosedMeaning(t: Transition)
    ensures Closed(t) <==> NoGoalsLeft(t)
    ensures Succeeds(t.status) <==> Passed(t)
  {
  }

  /** The plan without the cache is the plan of the candidate. */
  lemma DirectPlanMeaning(server: Server, task: string, root: string, c: Candidate)
    ensures PlanOf(server, task, root, c, DirectPlan(server, task, root, c))
  {
    hide DirectStep, ContextStep, StepOf, Closed, Succeeds, NoGoalsLeft, Passed, OrIdentity;
    forall t: Transition ensures (Closed(t) <==> NoGoalsLeft(t)) && (Succeeds(t.status) <==> Passed(t)) {
      ClosedMeaning(t);
    }
    var pre := DirectStep(server, task, root, OrIdentity(c.pre), Pre);
    ContextMeaning(server, task, root, c.pre, Pre);
    ContextMeaning(server, task, pre.stateId, c.post, Post);
    if c.premise.Some? {
      var premise := DirectStep(server, task, pre.stateId, c.premise.value, Premise);
      StepMeaning(server, task, pre.stateId, c.premise.value, Premise);
      ContextMeaning(server, task, premise.stateId, c.post, Post);
    }
  }

  lemma SameStep(server: Server, task: string, parent: string, own: Option<Chart>, c: Chart, role: Role,
                 t: Transition, d: Transition)
    requires Plain(t) == Plain(d)
    ensures StepOf(server, task, parent, c, role, t) <==> StepOf(server, task, parent, c, role, d)
    ensures ContextStep(server, task, parent, own, role, t) <==> ContextStep(server, task, parent, own, role, d)
    ensures (Passed(t) <==> Passed(d)) && (NoGoalsLeft(t) <==> NoGoalsLeft(d)) && t.stateId == d.stateId
  {
    hide DoesNothing, LeadsTo, SentFor, ContextOf;
    assert t == d.(cacheHit := t.cacheHit) by {
      assert Plain(t).(cacheHit := t.cacheHit) == t && Plain(d).(cacheHit := t.cacheHit) == d.(cacheHit := t.cacheHit);
    }
  }

  lemma SameStepAt(server: Server, task: string, c: Candidate, p: Plan, d: Plan, i: nat)
    requires PlainSteps(p.steps) == PlainSteps(d.steps) && i < |p.steps|
    ensures |p.steps| == |d.steps| && Plain(p.steps[i]) == Plain(d.steps[i])
  {
    assert |PlainSteps(p.steps)| == |PlainSteps(d.steps)|;
    assert PlainSteps(p.steps)[i] == Plain(p.steps[i]) && PlainSteps(d.steps)[i] == Plain(d.steps[i]);
  }

  /** Hit flags make no difference to what a plan is. */
  lemma SamePlanMeaning(server: Server, task: string, root: string, c: Candidate, p: Plan, d: Plan)
    requires SamePlan(p, d) && PlanOf(server, task, root, c, d)
    ensures PlanOf(server, task, root, c, p)
  {
    hide StepOf, ContextStep, NoGoalsLeft, Passed, Plain, PlainSteps;
    SameStepAt(server, task, c, p, d, 0);
    var any := IDENTITY_CHART;
    SameStep(server, task, root, c.pre, any, Pre, p.steps[0], d.steps[0]);
    if |p.steps| >= 2 {
      SameStepAt(server, task, c, p, d, 1);
      if c.premise.Some? {
        SameStep(server, task, p.steps[0].stateId, c.post, c.premise.value, Premise, p.steps[1], d.steps[1]);
      }
      SameStep(server, task, p.steps[0].stateId, c.post, any, Post, p.steps[1], d.steps[1]);
    }
    if |p.steps| >= 3 {
      SameStepAt(server, task, c, p, d, 2);
      SameStep(server, task, p.steps[1].stateId, c.post, any, Post, p.steps[2], d.steps[2]);
    }
  }

  // ----- The cache -----

  lemma IdentityStepHits(q: Request)
    ensures IdentityStep(q).cacheHit && IdentityStep(q).identity
  {
  }

  lemma FreshStepMisses(q: Request, rec: Record)
    ensures !FreshStep(q, rec).cacheHit && !FreshStep(q, rec).identity
  {
  }

  function Direct(server: Server, q: Request): Transition { DirectStep(server, q.task, q.parent, q.chart, q.role) }

  function KeyFor(q: Request): Key { KeyOf(q.parent, q.chart, q.role) }

  /** What the cache answers when origin records, key by key, the request that filled the entry. */
  function Served(server: Server, origin: map<Key, Request>, q: Request): Transition {
    if !IsIdentity(q.chart) && KeyFor(q) in origin then Direct(server, origin[KeyFor(q)]) else Direct(server, q)
  }

  /** The three outcomes of a request, one per counter. */
  lemma ServedCases(server: Server, origin: map<Key, Request>, q: Request)
    ensures IsIdentity(q.chart) ==>
      && Served(server, origin, q) == IdentityStep(q) && Recorded(origin, q) == origin
    ensures !IsIdentity(q.chart) && KeyFor(q) in origin ==>
      && Served(server, origin, q) == Direct(server, origin[KeyFor(q)]) && Recorded(origin, q) == origin
    ensures !IsIdentity(q.chart) && KeyFor(q) !in origin ==>
      && Served(server, origin, q) == Direct(server, q) && Recorded(origin, q) == origin[KeyFor(q) := q]
      && Direct(server, q) == FreshStep(q, server(q.task, Sent(q.chart, q.role), q.parent))
  {
    hide IsIdentity, AfterState;
  }

  function Recorded(origin: map<Key, Request>, q: Request): map<Key, Request> {
    if IsIdentity(q.chart) || KeyFor(q) in origin then origin else origin[KeyFor(q) := q]
  }

  function RecordedAll(origin: map<Key, Request>, qs: seq<Request>): map<Key, Request> {
    if qs == [] then origin else Recorded(RecordedAll(origin, qs[..|qs| - 1]), qs[|qs| - 1])
  }

  ghost predicate Origins(origin: map<Key, Request>) {
    forall k :: k in origin ==> KeyFor(origin[k]) == k && !IsIdentity(origin[k].chart)
  }

  lemma {:induction false} RecordedKeepsOrigins(qs: seq<Request>)
    ensures Origins(RecordedAll(map[], qs))
  {
    hide IsIdentity;
    if qs == [] {
    } else {
      RecordedKeepsOrigins(qs[..|qs| - 1]);
    }
  }

  /** Two requests share an entry: same state, action id, tactic and role. */
  predicate SameEntry(q: Request, q': Request) {
    && q.parent == q'.parent && q.role == q'.role
    && q.chart.actionId == q'.chart.actionId && q.chart.tactic == q'.chart.tactic
  }

  lemma KeyMeaning(q: Request, q': Request)
    ensures KeyFor(q) == KeyFor(q') <==> SameEntry(q, q')
  {
  }

  /** Request i is the first that is not an identity and shares the entry of q. */
  ghost predicate FirstAsked(qs: seq<Request>, q: Request, i: nat) {
    && i < |qs| && !DoesNothing(qs[i].chart) && SameEntry(qs[i], q)
    && forall j :: 0 <= j < i ==> DoesNothing(qs[j].chart) || !SameEntry(qs[j], q)
  }

  predicate Shares(o: Request, q: Request) { !IsIdentity(o.chart) && SameEntry(o, q) }

  lemma SharesMeaning(o: Request, q: Request)
    ensures Shares(o, q) <==> !DoesNothing(o.chart) && SameEntry(o, q)
    ensures Shares(o, q) <==> !IsIdentity(o.chart) && KeyFor(o) == KeyFor(q)
  {
    hide IsIdentity, DoesNothing;
    IdentityMeaning(o.chart);
    KeyMeaning(o, q);
  }

  lemma RecordedStep(origin: map<Key, Request>, o: Request, q: Request)
    ensures KeyFor(q) in Recorded(origin, o) <==> KeyFor(q) in origin || Shares(o, q)
    ensures KeyFor(q) in origin ==> Recorded(origin, o)[KeyFor(q)] == origin[KeyFor(q)]
    ensures KeyFor(q) !in origin && Shares(o, q) ==> Recorded(origin, o)[KeyFor(q)] == o
  {
    hide IsIdentity, KeyFor, Shares;
    SharesMeaning(o, q);
  }

  lemma {:induction false} RecordedNone(qs: seq<Request>, q: Request, n: nat)
    requires n <= |qs| && forall j :: 0 <= j < n ==> !Shares(qs[j], q)
    ensures KeyFor(q) !in RecordedAll(map[], qs[..n])
  {
    hide KeyFor, Recorded, Shares;
    if n == 0 {
    } else {
      RecordedNone(qs, q, n - 1);
      assert qs[..n][..n - 1] == qs[..n - 1];
      RecordedStep(RecordedAll(map[], qs[..n - 1]), qs[n - 1], q);
    }
  }

  lemma {:induction false} RecordedFirst(qs: seq<Request>, q: Request, i: nat, n: nat)
    requires i < n <= |qs| && Shares(qs[i], q) && forall j :: 0 <= j < i ==> !Shares(qs[j], q)
    ensures KeyFor(q) in RecordedAll(map[], qs[..n]) && RecordedAll(map[], qs[..n])[KeyFor(q)] == qs[i]
  {
    hide KeyFor, Recorded, Shares;
    assert qs[..n][..n - 1] == qs[..n - 1];
    RecordedStep(RecordedAll(map[], qs[..n - 1]), qs[n - 1], q);
    if i == n - 1 {
      RecordedNone(qs, q, i);
    } else {
      RecordedFirst(qs, q, i, n - 1);
    }
  }

  lemma {:induction false} FirstShared(qs: seq<Request>, q: Request, n: nat) returns (i: nat)
    requires n <= |qs|
    ensures i <= n && (i < n ==> Shares(qs[i], q)) && forall j :: 0 <= j < i ==> !Shares(qs[j], q)
  {
    if n == 0 {
      i := 0;
    } else {
      i := FirstShared(qs, q, n - 1);
      if i == n - 1 && !Shares(qs[i], q) {
        i := n;
      }
    }
  }

  /** An entry holds the first request that shares it. */
  lemma RecordedMeaning(qs: seq<Request>, q: Request)
    ensures KeyFor(q) in RecordedAll(map[], qs) <==> exists i: nat :: FirstAsked(qs, q, i)
    ensures forall i: nat :: FirstAsked(qs, q, i) ==>
      i < |qs| && KeyFor(q) in RecordedAll(map[], qs) && RecordedAll(map[], qs)[KeyFor(q)] == qs[i]
  {
    hide IsIdentity, DoesNothing, KeyFor, Shares, SameEntry, RecordedAll;
    forall o: Request ensures Shares(o, q) <==> !DoesNothing(o.chart) && SameEntry(o, q) {
      SharesMeaning(o, q);
    }
    assert qs[..|qs|] == qs;
    forall i: nat | FirstAsked(qs, q, i)
      ensures i < |qs| && KeyFor(q) in RecordedAll(map[], qs) && RecordedAll(map[], qs)[KeyFor(q)] == qs[i]
    {
      RecordedFirst(qs, q, i, |qs|);
    }
    var i := FirstShared(qs, q, |qs|);
    if i == |qs| {
      RecordedNone(qs, q, |qs|);
    } else {
      assert FirstAsked(qs, q, i);
    }
  }

  /** What the cache owes a request after others: the identity itself, the server's answer to the first
      request that shares its entry, or else the server's answer to it. */
  ghost predicate Owed(server: Server, asked: seq<Request>, q: Request, t: Transition) {
    && (DoesNothing(q.chart) ==> t.cacheHit && StepOf(server, q.task, q.parent, q.chart, q.role, t))
    && (!DoesNothing(q.chart) ==>
          && (t.cacheHit <==> exists i: nat :: FirstAsked(asked, q, i))
          && (forall i: nat :: FirstAsked(asked, q, i) ==>
                i < |asked| && var o := asked[i]; StepOf(server, o.task, o.parent, o.chart, o.role, t))
          && (!t.cacheHit ==> StepOf(server, q.task, q.parent, q.chart, q.role, t)))
  }

  lemma ServedIsOwed(server: Server, asked: seq<Request>, q: Request, t: Transition)
    requires Plain(t) == Plain(Served(server, RecordedAll(map[], asked), q))
    requires t.cacheHit <==> IsIdentity(q.chart) || KeyFor(q) in RecordedAll(map[], asked)
    ensures Owed(server, asked, q, t)
  {
    hide IsIdentity, DoesNothing, StepOf, FirstAsked, Plain, DirectStep, KeyFor;
    IdentityMeaning(q.chart);
    RecordedMeaning(asked, q);
    StepMeaning(server, q.task, q.parent, q.chart, q.role);
    if !IsIdentity(q.chart) && KeyFor(q) in RecordedAll(map[], asked) {
      var i: nat :| FirstAsked(asked, q, i);
      FirstIsAsked(asked, q, i);
      var o := asked[i];
      StepMeaning(server, o.task, o.parent, o.chart, o.role);
      SameStep(server, o.task, o.parent, None, o.chart, o.role, t, Direct(server, o));
      forall j: nat | FirstAsked(asked, q, j) ensures j == i {
        FirstIsOnly(asked, q, i, j);
      }
    } else {
      SameStep(server, q.task, q.parent, None, q.chart, q.role, t, Direct(server, q));
    }
  }

  lemma FirstIsAsked(asked: seq<Request>, q: Request, i: nat)
    requires FirstAsked(asked, q, i)
    ensures i < |asked|
  {
  }

  lemma FirstIsOnly(asked: seq<Request>, q: Request, i: nat, j: nat)
    requires FirstAsked(asked, q, i) && FirstAsked(asked, q, j)
    ensures i == j
  {
    hide DoesNothing, SameEntry;
  }

  /** The server's answer depends only on what the key records: the task and the action's other
      fields make no difference. */
  ghost predicate KeyDetermined(server: Server) {
    forall q, q', a, a' {:trigger server(q.task, a, q.parent), server(q'.task, a', q'.parent)} ::
      SameEntry(q, q') && !DoesNothing(q.chart) && !DoesNothing(q'.chart)
      && SentFor(q.chart, q.role, a) && SentFor(q'.chart, q'.role, a') ==>
        server(q.task, a, q.parent) == server(q'.task, a', q'.parent)
  }

  lemma KeyDeterminedAt(server: Server, q: Request, q': Request)
    requires KeyDetermined(server) && KeyFor(q) == KeyFor(q') && !IsIdentity(q.chart) && !IsIdentity(q'.chart)
    ensures server(q.task, Sent(q.chart, q.role), q.parent) == server(q'.task, Sent(q'.chart, q'.role), q'.parent)
  {
    hide IsIdentity, DoesNothing;
    IdentityMeaning(q.chart);
    IdentityMeaning(q'.chart);
    KeyMeaning(q, q');
    assert SentFor(q.chart, q.role, Sent(q.chart, q.role)) && SentFor(q'.chart, q'.role, Sent(q'.chart, q'.role));
  }

  lemma ServedIsDirect(server: Server, origin: map<Key, Request>, q: Request)
    requires KeyDetermined(server) && Origins(origin)
    ensures Served(server, origin, q) == Direct(server, q)
  {
    hide IsIdentity, AfterState;
    if !IsIdentity(q.chart) && KeyFor(q) in origin {
      KeyDeterminedAt(server, origin[KeyFor(q)], q);
      assert Direct(server, origin[KeyFor(q)]) == Direct(server, q);
    }
  }

  /** After any history, every request is answered as the server would answer it. */
  ghost predicate Transparent(server: Server) {
    forall qs, q {:trigger Served(server, RecordedAll(map[], qs), q)} ::
      Served(server, RecordedAll(map[], qs), q) == Direct(server, q)
  }

  /** The cache is invisible for every request history exactly when the server ignores what the key
      leaves out. */
  lemma TransparentIff(server: Server)
    ensures Transparent(server) <==> KeyDetermined(server)
  {
    hide IsIdentity, AfterState, DoesNothing, KeyDetermined;
    if KeyDetermined(server) {
      forall qs, q ensures Served(server, RecordedAll(map[], qs), q) == Direct(server, q) {
        RecordedKeepsOrigins(qs);
        ServedIsDirect(server, RecordedAll(map[], qs), q);
      }
    }
    if Transparent(server) {
      TransparentDetermines(server);
    }
  }

  lemma TransparentDetermines(server: Server)
    requires Transparent(server)
    ensures KeyDetermined(server)
  {
    hide IsIdentity, AfterState, DoesNothing, SentFor, SameEntry;
    forall q, q', a, a' | SameEntry(q, q') && !DoesNothing(q.chart) && !DoesNothing(q'.chart)
                          && SentFor(q.chart, q.role, a) && SentFor(q'.chart, q'.role, a')
      ensures server(q.task, a, q.parent) == server(q'.task, a', q'.parent)
    {
      IdentityMeaning(q.chart);
      IdentityMeaning(q'.chart);
      KeyMeaning(q, q');
      SentIsUnique(q, a);
      SentIsUnique(q', a');
      assert RecordedAll(map[], [q][..0]) == map[];
      assert RecordedAll(map[], [q]) == map[KeyFor(q) := q];
      assert Served(server, RecordedAll(map[], [q]), q') == Direct(server, q');
      assert Direct(server, q').audit == Direct(server, q).audit;
    }
  }

  lemma SentIsUnique(q: Request, a: SentAction)
    requires SentFor(q.chart, q.role, a)
    ensures a == Sent(q.chart, q.role)
  {
  }

  /** Each entry is the server's own answer to the request that filled it. */
  ghost predicate Faithful(cache: map<Key, Transition>, origin: map<Key, Request>, server: Server) {
    && Origins(origin) && origin.Keys == cache.Keys
    && forall k :: k in cache ==> cache[k] == Direct(server, origin[k])
  }

  lemma FaithfulHit(cache: map<Key, Transition>, origin: map<Key, Request>, server: Server, k: Key)
    requires Faithful(cache, origin, server)
    ensures Origins(origin) && (k in cache <==> k in origin)
    ensures k in cache ==> cache[k] == Direct(server, origin[k])
                           && Plain(cache[k].(cacheHit := true)) == Plain(Direct(server, origin[k]))
  {
    hide Direct;
  }

  lemma FaithfulMiss(cache: map<Key, Transition>, origin: map<Key, Request>, server: Server, q: Request, t: Transition)
    requires Faithful(cache, origin, server) && !IsIdentity(q.chart) && t == Direct(server, q)
    ensures Faithful(cache[KeyFor(q) := t], origin[KeyFor(q) := q], server)
  {
    hide Direct, IsIdentity, KeyFor;
  }

  lemma AskedStep(asked: seq<Request>, q: Request)
    ensures RecordedAll(map[], asked + [q]) == Recorded(RecordedAll(map[], asked), q)
  {
    assert (asked + [q])[..|asked|] == asked;
  }

  class ContextStateCache {
    const server: Server
    var cache: map<Key, Transition>
    var cacheRows: seq<Transition>
    var hits: nat
    var misses: nat
    var identityHits: nat
    /** The requests so far, and the one that filled each entry. */
    ghost var asked: seq<Request>
    ghost var origin: map<Key, Request>

    ghost predicate Valid()
      reads this
    {
      && misses == |cache| == |cacheRows| && origin == RecordedAll(map[], asked)
      && Faithful(cache, origin, server)
    }

    constructor (server: Server)
      ensures Valid() && this.server == server && cache == map[] && asked == [] && Calls() == 0
    {
      this.server := server;
      cache, cacheRows, asked, origin := map[], [], [], map[];
      hits, misses, identityHits := 0, 0, 0;
    }

    function Calls(): nat reads this { hits + misses + identityHits }

    /** One step: exactly one counter advances, and whatever the server is, the answer is the server's
        to the first request with the same key. */
    method ApplyCached(task: string, parent: string, c: Chart, role: Role) returns (t: Transition)
      requires Valid()
      modifies this
      ensures var q := Request(task, parent, c, role);
        && Valid() && origin == Recorded(old(origin), q)
        && Plain(t) == Plain(Served(server, old(origin), q))
        && (t.cacheHit <==> IsIdentity(c) || KeyFor(q) in old(cache))
      ensures asked == old(asked) + [Request(task, parent, c, role)]
      ensures Owed(server, old(asked), Request(task, parent, c, role), t)
      ensures identityHits == old(identityHits) + (if IsIdentity(c) then 1 else 0)
      ensures hits == old(hits) + (if !IsIdentity(c) && t.cacheHit then 1 else 0)
      ensures misses == old(misses) + (if t.cacheHit then 0 else 1)
      ensures cacheRows == old(cacheRows) + (if t.cacheHit then [] else [t])
    {
      hide IsIdentity, Served, Recorded, Direct, FreshStep, IdentityStep, Faithful, Plain, KeyOf, Owed, RecordedAll;
      var q := Request(task, parent, c, role);
      ServedCases(server, origin, q);
      ghost var before := asked;
      AskedStep(asked, q);
      asked := asked + [q];
      if IsIdentity(c) {
        identityHits := identityHits + 1;
        t := IdentityStep(q);
        IdentityStepHits(q);
        ServedIsOwed(server, before, q, t);
        return;
      }
      var key := KeyFor(q);
      FaithfulHit(cache, origin, server, key);
      if key in cache {
        hits := hits + 1;
        t := cache[key].(cacheHit := true);
        ServedIsOwed(server, before, q, t);
        return;
      }
      misses := misses + 1;
      t := FreshStep(q, server(task, Sent(c, role), parent));
      FreshStepMisses(q, server(task, Sent(c, role), parent));
      FaithfulMiss(cache, origin, server, q, t);
      cache := cache[key := t];
      cacheRows := cacheRows + [t];
      origin := origin[key := q];
      ServedIsOwed(server, before, q, t);
    }

    /** For a server that ignores what the key leaves out, a step through the cache is the direct one. */
    method ApplyDirect(task: string, parent: string, c: Chart, role: Role) returns (t: Transition)
      requires Valid() && KeyDetermined(server)
      modifies this
      ensures Valid() && Plain(t) == Plain(DirectStep(server, task, parent, c, role))
      ensures Calls() == old(Calls()) + 1
    {
      hide KeyDetermined, DirectStep, IsIdentity, Plain, Faithful;
      ghost var q := Request(task, parent, c, role);
      FaithfulHit(cache, origin, server, KeyFor(q));
      ServedIsDirect(server, origin, q);
      t := ApplyCached(task, parent, c, role);
    }

    /** The plan of one candidate through the cache: same steps, domain and status as without it. */
    method Materialize(task: string, root: string, c: Candidate) returns (p: Plan)
      requires Valid() && KeyDetermined(server)
      modifies this
      ensures Valid() && SamePlan(p, DirectPlan(server, task, root, c)) && PlanOf(server, task, root, c, p)
      ensures Calls() == old(Calls()) + |p.steps|
    {
      hide Faithful, KeyDetermined, SamePlan, DirectPlan, PlanOf;
      p := TakeSteps(task, root, c);
      DirectPlanMeaning(server, task, root, c);
      SamePlanMeaning(server, task, root, c, p, DirectPlan(server, task, root, c));
    }

    method TakeSteps(task: string, root: string, c: Candidate) returns (p: Plan)
      requires Valid() && KeyDetermined(server)
      modifies this
      ensures Valid() && SamePlan(p, DirectPlan(server, task, root, c))
      ensures Calls() == old(Calls()) + |p.steps|
    {
      hide Faithful, KeyDetermined, IsIdentity, DirectStep, Closed, Succeeds, Plain, SamePlan, KeyOf;
      ghost var d := DirectStep(server, task, root, OrIdentity(c.pre), Pre);
      var pre := ApplyDirect(task, root, OrIdentity(c.pre), Pre);
      PlainAgrees(pre, d);
      p := Plan([pre], PreFailed);
      ghost var plan := [d];
      if Succeeds(pre.status) {
        if Closed(pre) {
          p := Plan([pre], if c.baseline then DomainSuccess else PreClosed);
        } else if c.baseline {
          p := PostStep(task, [pre], c, plan);
          return;
        } else if c.premise.None? {
          p := Plan([pre], PremiseMissing);
        } else {
          ghost var e := DirectStep(server, task, d.stateId, c.premise.value, Premise);
          var premise := ApplyDirect(task, pre.stateId, c.premise.value, Premise);
          PlainAgrees(premise, e);
          plan := [d, e];
          if !Succeeds(premise.status) {
            p := Plan([pre, premise], PremiseFailed);
          } else if Closed(premise) {
            p := Plan([pre, premise], DomainSuccess);
          } else {
            p := PostStep(task, [pre, premise], c, plan);
            return;
          }
        }
      }
      SameSteps(p.steps, plan, p.domain);
    }

    /** The last step of a plan whose earlier steps agree with the direct ones. */
    method PostStep(task: string, steps: seq<Transition>, c: Candidate, ghost direct: seq<Transition>)
      returns (p: Plan)
      requires Valid() && KeyDetermined(server)
      requires |steps| == |direct| > 0 && forall i :: 0 <= i < |steps| ==> Plain(steps[i]) == Plain(direct[i])
      modifies this
      ensures Valid() && SamePlan(p, DirectPost(server, task, direct, c))
      ensures Calls() == old(Calls()) + 1 && |p.steps| == |steps| + 1
    {
      hide Faithful, KeyDetermined, IsIdentity, DirectStep, Succeeds, Plain, SamePlan, KeyOf;
      PlainAgrees(steps[|steps| - 1], direct[|direct| - 1]);
      ghost var d := DirectStep(server, task, direct[|direct| - 1].stateId, OrIdentity(c.post), Post);
      var post := ApplyDirect(task, steps[|steps| - 1].stateId, OrIdentity(c.post), Post);
      PlainAgrees(post, d);
      p := Plan(steps + [post], if Succeeds(post.status) then DomainSuccess else PostFailed);
      SameSteps(steps + [post], direct + [d], p.domain);
    }

    /** A whole list of candidates sharing the cache: each plan is the one its candidate gets alone, so
        neither the order nor the other candidates matter, and every call is counted once. */
    method MaterializeAll(jobs: seq<Job>) returns (plans: seq<Plan>)
      requires Valid() && KeyDetermined(server)
      modifies this
      ensures Valid() && |plans| == |jobs|
      ensures forall i :: 0 <= i < |jobs| ==>
        && SamePlan(plans[i], DirectPlan(server, jobs[i].task, jobs[i].root, jobs[i].candidate))
        && PlanOf(server, jobs[i].task, jobs[i].root, jobs[i].candidate, plans[i])
      ensures Calls() == old(Calls()) + StepCount(plans)
    {
      hide Faithful, KeyDetermined, SamePlan, DirectPlan, PlanOf;
      plans := [];
      for n := 0 to |jobs|
        invariant Valid() && |plans| == n
        invariant forall i :: 0 <= i < n ==>
          && SamePlan(plans[i], DirectPlan(server, jobs[i].task, jobs[i].root, jobs[i].candidate))
          && PlanOf(server, jobs[i].task, jobs[i].root, jobs[i].candidate, plans[i])
        invariant Calls() == old(Calls()) + StepCount(plans)
      {
        var p := Materialize(jobs[n].task, jobs[n].root, jobs[n].candidate);
        assert (plans + [p])[..n] == plans;
        plans := plans + [p];
      }
    }
  }

  datatype Job = Job(task: string, root: string, candidate: Candidate)

  function StepCount(plans: seq<Plan>): nat {
    if plans == [] then 0 else StepCount(plans[..|plans| - 1]) + |plans[|plans| - 1].steps|
  }
}
