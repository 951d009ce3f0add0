/**
 The agent graph: nine nodes, the three conditional routes, and every run of the compiled graph
 from a fresh state, whatever the nodes' outside worlds answer or raise and whatever others do at
 the approval gate meanwhile.
 */
module AgentGraph {
  import opened Basics
  import opened Wrappers
  import opened HitlGate
  import opened AgentState

  datatype Node =
    | TriageNode | AlertCorrelation | PlanningNode | DiagnosticNode | HitlNode | RemediationNode
    | Report | KnowledgeSink | DirectTool | End

  // ---------------------------------------------------------------- routes

  function RouteFromTriage(s: AgentState): Node {
    if s.route == Some("direct_tool") then DirectTool
    else if s.route == Some("alert_correlation") then AlertCorrelation
    else PlanningNode
  }

  function RouteFromDiagnostic(s: AgentState): Node {
    if s.round >= s.maxRounds then Report
    else if s.tokens > 14000 then Report
    else if s.confidence < 0.6 && s.requirements != [] then DiagnosticNode
    else if HighSteps(s.plan) != [] then HitlNode
    else Report
  }

  function RouteFromHitl(s: AgentState): Node {
    if s.hitlStatus == Some("approved") then RemediationNode else Report
  }

  function Next(node: Node, s: AgentState): Node {
    match node
    case TriageNode => RouteFromTriage(s)
    case AlertCorrelation => PlanningNode
    case PlanningNode => DiagnosticNode
    case DiagnosticNode => RouteFromDiagnostic(s)
    case HitlNode => RouteFromHitl(s)
    case RemediationNode => Report
    case Report => KnowledgeSink
    case KnowledgeSink => End
    case DirectTool => End
    case End => End
  }

  // ---------------------------------------------------------------- one node execution

  /**
   Everything outside the node: its own inputs, an exception in a node that only formats, tokens
   spent, and what others do at the approval gate while the node runs.
   */
  datatype Input = Input(
    triage: TriageInput, planning: PlanningInput, diagnostic: DiagnosticInput, hitl: HitlInput,
    remediation: RemediationInput, crash: bool, tokens: nat, others: seq<GateOp>)

  datatype Config = Config(node: Node, state: AgentState, gate: Gate)

  ghost function Execute(node: Node, s: AgentState, g: Gate, settings: Settings, i: Input): (AgentState, Gate)
    requires node == HitlNode ==> |i.hitl.ids| == |HighSteps(s.plan)|
  {
    match node
    case TriageNode => (Swallow(Triage(s, i.triage)), g)
    case PlanningNode => (Swallow(Planning(s, i.planning)), g)
    case DiagnosticNode => (Swallow(Diagnostic(s, i.diagnostic)), g)
    case HitlNode => var (r, g') := Hitl(s, g, i.hitl); (Swallow(r), g')
    case RemediationNode => (Swallow(Remediation(s, settings, i.remediation)), g)
    case _ => (if i.crash then Swallow(Raised(s)) else s, g)
  }

  /** Ids are new and distinct, and nobody else creates a request under an existing id. */
  ghost predicate Allowed(c: Config, i: Input) {
    var g := AfterAll(c.gate, i.others);
    && FreshIds(c.gate, i.others)
    && (c.node == HitlNode ==> AllowedHitl(c.state, g, i.hitl))
  }

  ghost predicate AllowedHitl(s: AgentState, g: Gate, i: HitlInput) {
    && |i.ids| == |HighSteps(s.plan)|
    && NoDuplicates(i.ids)
    && (forall a :: 0 <= a < |i.ids| ==> i.ids[a] !in g.requests)
    && FreshIds(AfterAll(g, RequestOps(HighSteps(s.plan), i.ids, i.timeout, i.now)), i.between)
  }

  ghost function Step(c: Config, settings: Settings, i: Input): Config
    requires Allowed(c, i)
  {
    if c.node == End then c
    else
      var (s, g) := Execute(c.node, c.state, AfterAll(c.gate, i.others), settings, i);
      var s' := s.(tokens := s.tokens + i.tokens);
      Config(Next(c.node, s'), s', g)
  }

  /** A run: the configurations reached, one node execution apart. */
  ghost predicate IsRun(run: seq<Config>, settings: Settings, inputs: seq<Input>) {
    && |run| == |inputs| + 1
    && (forall k :: 0 <= k < |inputs| ==> Allowed(run[k], inputs[k]))
    && (forall k :: 0 <= k < |inputs| ==> run[k + 1] == Step(run[k], settings, inputs[k]))
  }

  ghost predicate IsFreshRun(run: seq<Config>, settings: Settings, inputs: seq<Input>) {
    && IsRun(run, settings, inputs)
    && run[0].node == TriageNode && run[0].state == InitialState(run[0].state.requestType, run[0].state.alerts)
    && GateInv(run[0].gate)
  }

  // ---------------------------------------------------------------- termination

  /** What every reachable configuration keeps about the round counter. */
  ghost predicate RoundInv(c: Config) {
    && c.state.maxRounds <= 5 && c.state.round >= 0
    && (c.node in {TriageNode, AlertCorrelation, PlanningNode} ==> c.state.round == 0)
  }

  /** At most this many node executions are left. */
  ghost function ExecutionsLeft(c: Config): nat
    requires RoundInv(c)
  {
    match c.node
    case TriageNode => 11
    case AlertCorrelation => 10
    case PlanningNode => 9
    case DiagnosticNode => if c.state.round + 1 >= c.state.maxRounds then 3 else c.state.maxRounds - c.state.round + 3
    case HitlNode => 4
    case RemediationNode => 3
    case Report => 2
    case KnowledgeSink => 1
    case DirectTool => 1
    case End => 0
  }

  /** At most this many of them are diagnostic rounds. */
  ghost function RoundsLeft(c: Config): nat
    requires RoundInv(c)
  {
    match c.node
    case TriageNode => 5
    case AlertCorrelation => 5
    case PlanningNode => 5
    case DiagnosticNode => if c.state.round + 1 >= c.state.maxRounds then 1 else c.state.maxRounds - c.state.round
    case _ => 0
  }

  /** The fields the routes and bounds read, across one execution. */
  lemma ExecuteRounds(node: Node, s: AgentState, g: Gate, settings: Settings, i: Input)
    requires node == HitlNode ==> |i.hitl.ids| == |HighSteps(s.plan)|
    ensures var s' := Execute(node, s, g, settings, i).0;
            && s'.requestType == s.requestType
            && s'.round == (if node == DiagnosticNode then s.round + 1 else s.round)
            && (s'.maxRounds == s.maxRounds || (node == PlanningNode && s'.maxRounds <= 5))
  {}

  lemma StepRounds(c: Config, settings: Settings, i: Input)
    requires Allowed(c, i) && RoundInv(c)
    ensures RoundInv(Step(c, settings, i))
    ensures c.node != End ==> ExecutionsLeft(Step(c, settings, i)) < ExecutionsLeft(c)
    ensures RoundsLeft(Step(c, settings, i)) + (if c.node == DiagnosticNode then 1 else 0) <= RoundsLeft(c)
  {
    if c.node != End {
      ExecuteRounds(c.node, c.state, AfterAll(c.gate, i.others), settings, i);
    }
  }

  ghost function CountExecutions(run: seq<Config>, n: nat): nat
    requires n <= |run|
  {
    if n == 0 then 0 else CountExecutions(run, n - 1) + if run[n - 1].node == End then 0 else 1
  }

  ghost function CountRounds(run: seq<Config>, n: nat): nat
    requires n <= |run|
  {
    if n == 0 then 0 else CountRounds(run, n - 1) + if run[n - 1].node == DiagnosticNode then 1 else 0
  }

  lemma {:induction false} RunBounds(run: seq<Config>, settings: Settings, inputs: seq<Input>, n: nat)
    requires IsFreshRun(run, settings, inputs) && n < |run|
    ensures RoundInv(run[n])
    ensures CountExecutions(run, n) + ExecutionsLeft(run[n]) <= 11
    ensures CountRounds(run, n) + RoundsLeft(run[n]) <= 5
    ensures run[n].node == End || n + ExecutionsLeft(run[n]) <= 11
  {
    if n > 0 {
      RunBounds(run, settings, inputs, n - 1);
      StepRounds(run[n - 1], settings, inputs[n - 1]);
    }
  }

  /** Every run has at most 11 node executions, 5 of them diagnostic rounds, and is over after 11. */
  lemma {:induction false} EveryRunEnds(run: seq<Config>, settings: Settings, inputs: seq<Input>)
    requires IsFreshRun(run, settings, inputs)
    ensures CountExecutions(run, |run|) <= 11 && CountRounds(run, |run|) <= 5
    ensures |inputs| >= 11 ==> run[|inputs|].node == End
  {
    RunBounds(run, settings, inputs, |inputs|);
  }

  // ---------------------------------------------------------------- how runs end

  ghost function Phase(node: Node): nat {
    match node
    case TriageNode => 0
    case AlertCorrelation => 1
    case PlanningNode => 2
    case DiagnosticNode => 3
    case HitlNode => 4
    case RemediationNode => 5
    case Report => 6
    case KnowledgeSink => 7
    case DirectTool => 8
    case End => 9
  }

  lemma StepPhase(c: Config, settings: Settings, i: Input)
    requires Allowed(c, i)
    ensures var next := Step(c, settings, i).node;
            && 0 < Phase(next) && Phase(c.node) <= Phase(next)
            && (c.node != DiagnosticNode && c.node != End ==> Phase(c.node) < Phase(next))
            && (next == KnowledgeSink <==> c.node == Report)
            && (next == End <==> c.node in {KnowledgeSink, DirectTool, End})
            && (next == DirectTool ==> c.node == TriageNode)
  {}

  lemma {:induction false} PhaseMonotone(run: seq<Config>, settings: Settings, inputs: seq<Input>, j: nat, k: nat)
    requires IsRun(run, settings, inputs) && j <= k < |run|
    ensures Phase(run[j].node) <= Phase(run[k].node)
    ensures k > 0 ==> run[k].node != TriageNode
  {
    if k > 0 { StepPhase(run[k - 1], settings, inputs[k - 1]); }
    if j < k { PhaseMonotone(run, settings, inputs, j, k - 1); }
  }

  /**
   A finished run is triage then direct tool, or it ends with report then knowledge sink, each
   exactly once, and never visits direct tool.
   */
  lemma RunsEndWithReport(run: seq<Config>, settings: Settings, inputs: seq<Input>, n: nat)
    requires IsFreshRun(run, settings, inputs) && 0 < n < |run|
    requires run[n].node == End && run[n - 1].node != End
    ensures if run[n - 1].node == DirectTool then n == 2
            else
              && n >= 4 && run[n - 1].node == KnowledgeSink && run[n - 2].node == Report
              && forall k :: 0 <= k < n - 2 ==> run[k].node !in {Report, KnowledgeSink, DirectTool, End}
  {
    StepPhase(run[n - 1], settings, inputs[n - 1]);
    if run[n - 1].node == DirectTool {
      StepPhase(run[n - 2], settings, inputs[n - 2]);
      PhaseMonotone(run, settings, inputs, n - 2, n - 2);
    } else {
      StepPhase(run[n - 2], settings, inputs[n - 2]);
      StepPhase(run[n - 3], settings, inputs[n - 3]);
      assert Phase(run[n - 3].node) < Phase(Report);
      forall k | 0 <= k < n - 2 ensures run[k].node !in {Report, KnowledgeSink, DirectTool, End} {
        PhaseMonotone(run, settings, inputs, k, n - 3);
      }
      TriageNotLast(run, settings, inputs, n - 3);
    }
  }

  lemma TriageNotLast(run: seq<Config>, settings: Settings, inputs: seq<Input>, k: nat)
    requires IsFreshRun(run, settings, inputs) && k + 1 < |run| && run[k + 1].node == Report
    ensures k > 0
  {}

  // ---------------------------------------------------------------- the fast path

  /** The fast path is taken exactly on a rule match, or on the model's word for no alert and fewer than three alerts. */
  lemma FastPathExactly(s: AgentState, i: TriageInput)
    requires s.route == None
    ensures RouteFromTriage(Swallow(Triage(s, i))) == DirectTool
            <==> if s.requestType == "user_query" && !i.rules.NoMatch? then i.rules.Matched?
                 else i.llmRoute == Some("direct_tool") && s.alerts < 3 && s.requestType != "alert"
  {}

  /** No run of an alert request visits direct tool. */
  lemma AlertsNeverTakeFastPath(run: seq<Config>, settings: Settings, inputs: seq<Input>, k: nat)
    requires IsFreshRun(run, settings, inputs) && k < |run|
    requires run[0].state.requestType == "alert"
    ensures run[k].node != DirectTool
  {
    if k > 0 {
      StepPhase(run[k - 1], settings, inputs[k - 1]);
      PhaseMonotone(run, settings, inputs, k - 1, k - 1);
      if k == 1 { FastPathExactly(run[0].state, inputs[0].triage); }
    }
  }

  // ---------------------------------------------------------------- where a run goes next

  /** The node after triage, from the request, the rule engine and the model's word. */
  lemma AfterTriageExactly(run: seq<Config>, settings: Settings, inputs: seq<Input>)
    requires IsFreshRun(run, settings, inputs) && |run| > 1
    ensures var s, i := run[0].state, inputs[0].triage;
            var matched := s.requestType == "user_query" && i.rules == Matched;
            var raised := s.requestType == "user_query" && i.rules == RuleRaised;
            var correlates := s.alerts >= 3 || i.llmRoute == Some("alert_correlation");
            && (run[1].node == DirectTool <==>
                  matched || (!raised && !correlates && i.llmRoute == Some("direct_tool") && s.requestType != "alert"))
            && (run[1].node == AlertCorrelation <==> !matched && !raised && correlates)
            && run[1].node in {DirectTool, AlertCorrelation, PlanningNode}
            && run[1].state.route == (if matched then Some("direct_tool") else if raised then None
                                      else if correlates then Some("alert_correlation")
                                      else if i.llmRoute == None || (i.llmRoute == Some("direct_tool") && s.requestType == "alert")
                                      then Some("diagnosis") else i.llmRoute)
  {
    assert "direct_tool"[1] == 'i' && "alert_correlation"[1] == 'l' && "diagnosis"[2] == 'a' && "direct_tool"[2] == 'r';
    assert "user_query"[0] == 'u' && "alert"[0] == 'a';
  }

  lemma {:induction false} SomeHighStep(plan: seq<PlanStep>)
    ensures HighSteps(plan) != [] <==> exists j :: 0 <= j < |plan| && plan[j].risk in {"high", "critical"}
  {
    if plan != [] {
      SomeHighStep(plan[1..]);
      assert forall j :: 1 <= j < |plan| ==> plan[j] == plan[1..][j - 1];
      assert forall j :: 0 <= j < |plan| - 1 ==> plan[1..][j] == plan[j + 1];
    }
  }

  /**
   After every diagnostic round: another round exactly when rounds and tokens are left, confidence is
   low and data was asked for; the approval node exactly when rounds and tokens are left, no round is
   due and the plan has a high or critical step; the report otherwise.
   */
  lemma AfterRoundExactly(run: seq<Config>, settings: Settings, inputs: seq<Input>, k: nat)
    requires IsRun(run, settings, inputs) && k + 1 < |run| && run[k].node == DiagnosticNode
    ensures var s, next := run[k + 1].state, run[k + 1].node;
            var within := s.round < s.maxRounds && s.tokens <= 14000;
            var due := s.confidence < 0.6 && s.requirements != [];
            && (next == DiagnosticNode <==> within && due)
            && (next == HitlNode <==>
                  within && !due && exists j :: 0 <= j < |s.plan| && s.plan[j].risk in {"high", "critical"})
            && next in {DiagnosticNode, HitlNode, Report}
  {
    SomeHighStep(run[k + 1].state.plan);
  }

  lemma StepTokens(c: Config, settings: Settings, i: Input)
    requires Allowed(c, i)
    ensures Step(c, settings, i).state.tokens == c.state.tokens + if c.node == End then 0 else i.tokens
    ensures Step(c, settings, i).node == HitlNode ==> c.node == DiagnosticNode
    ensures Step(c, settings, i).node == DiagnosticNode ==> c.node in {PlanningNode, DiagnosticNode}
  {}

  lemma RunTokens(run: seq<Config>, settings: Settings, inputs: seq<Input>, k: nat)
    requires IsRun(run, settings, inputs) && k + 1 < |run|
    ensures run[k].state.tokens <= run[k + 1].state.tokens
    ensures run[k + 1].node == HitlNode ==> run[k].node == DiagnosticNode
    ensures run[k + 1].node == DiagnosticNode ==> run[k].node in {PlanningNode, DiagnosticNode}
  {
    StepTokens(run[k], settings, inputs[k]);
  }

  ghost predicate TokensGrowAt(run: seq<Config>, k: nat)
    requires k + 1 < |run|
  {
    run[k].state.tokens <= run[k + 1].state.tokens
  }

  lemma {:induction false} TokensGrow(run: seq<Config>, j: nat, k: nat)
    requires j <= k < |run| && forall m: nat :: m + 1 < |run| ==> TokensGrowAt(run, m)
    ensures run[j].state.tokens <= run[k].state.tokens
  {
    if j < k {
      TokensGrow(run, j, k - 1);
      assert TokensGrowAt(run, k - 1);
    }
  }

  lemma RunTokensGrow(run: seq<Config>, settings: Settings, inputs: seq<Input>, j: nat, k: nat)
    requires IsRun(run, settings, inputs) && j <= k < |run|
    ensures run[j].state.tokens <= run[k].state.tokens
  {
    forall m: nat | m + 1 < |run| ensures TokensGrowAt(run, m) { RunTokens(run, settings, inputs, m); }
    TokensGrow(run, j, k);
  }

  /** Once more than 14000 tokens are spent, no approval starts, nor any round but one just planned: rounds lead to report. */
  lemma TokensStopRuns(run: seq<Config>, settings: Settings, inputs: seq<Input>, j: nat, k: nat)
    requires IsRun(run, settings, inputs) && j < k < |run| && run[j].state.tokens > 14000
    ensures run[k].node != HitlNode
    ensures run[k].node == DiagnosticNode ==> run[k - 1].node == PlanningNode
    ensures run[k - 1].node == DiagnosticNode ==> run[k].node == Report
  {
    RunTokensGrow(run, settings, inputs, j, k);
    RunTokens(run, settings, inputs, k - 1);
    if run[k - 1].node == DiagnosticNode { AfterRoundExactly(run, settings, inputs, k - 1); }
  }

  /** The planning node: one round more than the model's estimate, five at most. */
  lemma AfterPlanningExactly(run: seq<Config>, settings: Settings, inputs: seq<Input>, k: nat)
    requires IsRun(run, settings, inputs) && k + 1 < |run| && run[k].node == PlanningNode
    ensures run[k + 1].node == DiagnosticNode
    ensures var s, s' := run[k].state, run[k + 1].state;
            match inputs[k].planning
            case PlanAnswered(e, needed) => s'.requirements == needed && s'.maxRounds == (if e < 5 then e + 1 else 5) && s'.errors == s.errors
            case PlanFallback(None, needed) => s'.requirements == needed && s'.maxRounds == s.maxRounds && s'.errors == s.errors
            case PlanFallback(Some(e), needed) =>
              s'.requirements == needed && s'.maxRounds == (if e < 5 then e + 1 else 5) && s'.errors == s.errors
            case PlanRaised => s'.requirements == s.requirements && s'.maxRounds == s.maxRounds && s'.errors == s.errors + 1
  {}

  lemma {:induction false} RoundsAreCounted(run: seq<Config>, settings: Settings, inputs: seq<Input>, n: nat)
    requires IsFreshRun(run, settings, inputs) && n < |run|
    ensures run[n].state.round == CountRounds(run, n)
  {
    if n > 0 {
      RoundsAreCounted(run, settings, inputs, n - 1);
      var c, i := run[n - 1], inputs[n - 1];
      if c.node != End { ExecuteRounds(c.node, c.state, AfterAll(c.gate, i.others), settings, i); }
    }
  }

  /** The round limit is the planning node's, and a round is only followed by another below it. */
  ghost predicate RoundsFollow(c: Config, d: Config) {
    && d.state.round == c.state.round + (if c.node == DiagnosticNode then 1 else 0)
    && (c.node != PlanningNode ==> d.state.maxRounds == c.state.maxRounds)
    && Phase(c.node) <= Phase(d.node)
    && (d.node == DiagnosticNode ==> c.node == PlanningNode || (c.node == DiagnosticNode && d.state.round < d.state.maxRounds))
  }

  lemma RunRounds(run: seq<Config>, settings: Settings, inputs: seq<Input>, k: nat)
    requires IsRun(run, settings, inputs) && k + 1 < |run|
    ensures RoundsFollow(run[k], run[k + 1])
  {
    var c, i := run[k], inputs[k];
    StepPhase(c, settings, i);
    if c.node != End { ExecuteRounds(c.node, c.state, AfterAll(c.gate, i.others), settings, i); }
    if c.node == DiagnosticNode { AfterRoundExactly(run, settings, inputs, k); }
    StepTokens(c, settings, i);
  }

  ghost predicate WithinLimit(c: Config, limit: int) {
    && c.state.maxRounds == limit && Phase(c.node) >= 3
    && c.state.round + (if c.node == DiagnosticNode then 1 else 0) <= limit
  }

  lemma LimitKept(c: Config, d: Config, limit: int)
    requires WithinLimit(c, limit) && RoundsFollow(c, d)
    ensures WithinLimit(d, limit)
  {}

  lemma JustPlanned(run: seq<Config>, settings: Settings, inputs: seq<Input>, p: nat)
    requires IsFreshRun(run, settings, inputs) && p + 1 < |run| && run[p].node == PlanningNode && run[p + 1].state.maxRounds >= 1
    ensures WithinLimit(run[p + 1], run[p + 1].state.maxRounds)
  {
    RunBounds(run, settings, inputs, p);
    RunRounds(run, settings, inputs, p);
    AfterPlanningExactly(run, settings, inputs, p);
  }

  ghost predicate FollowsAt(run: seq<Config>, k: nat)
    requires k + 1 < |run|
  {
    RoundsFollow(run[k], run[k + 1])
  }

  lemma {:induction false} LimitKeptAlong(run: seq<Config>, p: nat, n: nat, limit: int)
    requires p <= n < |run| && WithinLimit(run[p], limit) && forall k: nat :: k + 1 < |run| ==> FollowsAt(run, k)
    ensures WithinLimit(run[n], limit)
  {
    if p < n {
      LimitKeptAlong(run, p, n - 1, limit);
      assert FollowsAt(run, n - 1);
      LimitKept(run[n - 1], run[n], limit);
    }
  }

  lemma RoundsFitLimit(run: seq<Config>, settings: Settings, inputs: seq<Input>, p: nat, n: nat)
    requires IsFreshRun(run, settings, inputs) && p < n < |run| && run[p].node == PlanningNode && run[p + 1].state.maxRounds >= 1
    ensures WithinLimit(run[n], run[p + 1].state.maxRounds)
  {
    JustPlanned(run, settings, inputs, p);
    forall k: nat | k + 1 < |run| ensures FollowsAt(run, k) { RunRounds(run, settings, inputs, k); }
    LimitKeptAlong(run, p + 1, n, run[p + 1].state.maxRounds);
  }

  /** A plan's estimate is kept: no run makes more than one round over it, nor more than five. */
  lemma RoundsWithinPlan(run: seq<Config>, settings: Settings, inputs: seq<Input>, p: nat, n: nat)
    requires IsFreshRun(run, settings, inputs) && p < n < |run| && run[p].node == PlanningNode && inputs[p].planning.PlanAnswered?
    ensures var e := inputs[p].planning.estimate; CountRounds(run, n) <= if e < 5 then e + 1 else 5
  {
    AfterPlanningExactly(run, settings, inputs, p);
    RoundsAreCounted(run, settings, inputs, n);
    RoundsFitLimit(run, settings, inputs, p, n);
  }

  /** A round writes the diagnosis, then the plan, then the open questions, as far as it gets. */
  lemma DiagnosisWritten(run: seq<Config>, settings: Settings, inputs: seq<Input>, k: nat)
    requires IsRun(run, settings, inputs) && k + 1 < |run| && run[k].node == DiagnosticNode
    ensures var s, s', d := run[k].state, run[k + 1].state, inputs[k].diagnostic;
            && s'.round == s.round + 1
            && s'.confidence == (if d.progress == BeforeDiagnosis then s.confidence else d.confidence)
            && (if d.progress in {BeforeDiagnosis, AfterDiagnosis} then s'.plan == s.plan else DraftedAs(d.drafts, s'.plan))
            && s'.requirements == (if d.progress != Complete then s.requirements else if d.confidence < 0.6 then d.needed else [])
            && s'.errors == s.errors + if d.progress == Complete then 0 else 1
  {}

  /** The plan is the model's steps, field by field, none with a tool, a request or a result. */
  ghost predicate DraftedAs(drafts: seq<Draft>, plan: seq<PlanStep>) {
    && |plan| == |drafts|
    && forall j :: 0 <= j < |plan| ==>
         && plan[j].number == drafts[j].number && plan[j].action == drafts[j].action && plan[j].risk == drafts[j].risk
         && plan[j].requiresApproval == drafts[j].requiresApproval && plan[j].rollback == drafts[j].rollback
         && plan[j].impact == drafts[j].impact && plan[j].tool == "" && plan[j].approvalId == None
         && plan[j].execution == NotProcessed
  }

  // ---------------------------------------------------------------- exceptions are counted

  /** An exception escapes the node this time. */
  ghost predicate Escapes(c: Config, i: Input) {
    match c.node
    case TriageNode => c.state.requestType == "user_query" && i.triage.rules == RuleRaised
    case PlanningNode => i.planning == PlanRaised
    case DiagnosticNode => i.diagnostic.progress != Complete
    case HitlNode => i.hitl.crash != NoCrash
    case RemediationNode => c.state.plan != [] && i.remediation.crashAfter != None
    case End => false
    case _ => i.crash
  }

  ghost function CountEscapes(run: seq<Config>, inputs: seq<Input>, n: nat): nat
    requires n <= |run| && n <= |inputs|
  {
    if n == 0 then 0 else CountEscapes(run, inputs, n - 1) + if Escapes(run[n - 1], inputs[n - 1]) then 1 else 0
  }

  lemma StepErrors(c: Config, settings: Settings, i: Input)
    requires Allowed(c, i) && ApprovalInv(c)
    ensures Step(c, settings, i).state.errors == c.state.errors + if Escapes(c, i) then 1 else 0
  {}

  /** In every run the error count is the number of exceptions that escaped a node; none ends the run. */
  lemma {:induction false} ErrorsAreExceptions(run: seq<Config>, settings: Settings, inputs: seq<Input>, n: nat)
    requires IsFreshRun(run, settings, inputs) && n < |run|
    ensures run[n].state.errors == CountEscapes(run, inputs, n)
  {
    if n > 0 {
      ErrorsAreExceptions(run, settings, inputs, n - 1);
      RunApproval(run, settings, inputs, n - 1);
      StepErrors(run[n - 1], settings, inputs[n - 1]);
    }
  }

  // ---------------------------------------------------------------- approval safety

  /** The step's own request is approved at the gate; a critical one took two people, or none at all. */
  ghost predicate StepApproved(step: PlanStep, g: Gate) {
    && step.approvalId.Some? && step.approvalId.value in g.requests
    && var r := g.requests[step.approvalId.value];
    && r.status in {Approved, AutoApproved} && r.riskLevel == step.risk && r.operation == step.action
    && (step.risk == "critical" ==> r.status == AutoApproved || |Distinct(r.approvedBy)| == 2)
  }

  /** Every high-risk step of the plan has an approved request of its own. */
  ghost predicate PlanApproved(plan: seq<PlanStep>, g: Gate) {
    var high := HighSteps(plan);
    && (forall a :: 0 <= a < |high| ==> StepApproved(high[a], g))
    && (forall a, b :: 0 <= a < b < |high| ==> high[a].approvalId != high[b].approvalId)
  }

  /** High-risk steps keep their order: position j of the plan is one of them, after those before it. */
  ghost function HighBefore(plan: seq<PlanStep>, j: nat): nat
    requires j <= |plan|
  {
    if j == 0 then 0 else HighBefore(plan, j - 1) + if plan[j - 1].risk in {"high", "critical"} then 1 else 0
  }

  lemma {:induction false} HighBeforeTail(plan: seq<PlanStep>, j: nat)
    requires 1 <= j <= |plan|
    ensures HighBefore(plan, j) == HighBefore(plan[1..], j - 1) + if plan[0].risk in {"high", "critical"} then 1 else 0
  {
    if j == 1 {
      assert HighBefore(plan, 1) == HighBefore(plan, 0) + if plan[0].risk in {"high", "critical"} then 1 else 0;
    } else {
      HighBeforeTail(plan, j - 1);
      assert plan[j - 1] == plan[1..][j - 2];
    }
  }

  lemma {:induction false} HighStepAt(plan: seq<PlanStep>, j: nat)
    requires j < |plan| && plan[j].risk in {"high", "critical"}
    ensures HighBefore(plan, j) < |HighSteps(plan)| && HighSteps(plan)[HighBefore(plan, j)] == plan[j]
  {
    if j > 0 {
      HighStepAt(plan[1..], j - 1);
      HighBeforeTail(plan, j);
    }
  }

  lemma {:induction false} HighBeforeGrows(plan: seq<PlanStep>, j: nat, k: nat)
    requires j < k <= |plan| && plan[j].risk in {"high", "critical"}
    ensures HighBefore(plan, j) < HighBefore(plan, k)
  {
    if j + 1 < k { HighBeforeGrows(plan, j, k - 1); }
  }

  lemma {:induction false} HighStepsAre(plan: seq<PlanStep>, step: PlanStep)
    ensures step in HighSteps(plan) <==> step in plan && step.risk in {"high", "critical"}
  {
    if plan != [] {
      HighStepsAre(plan[1..], step);
      assert plan == [plan[0]] + plan[1..];
    }
  }

  lemma {:induction false} TagHighSteps(plan: seq<PlanStep>, ids: seq<string>)
    requires |ids| == |HighSteps(plan)|
    ensures |HighSteps(Tag(plan, ids))| == |ids|
    ensures forall a :: 0 <= a < |ids| ==> HighSteps(Tag(plan, ids))[a] == HighSteps(plan)[a].(approvalId := Some(ids[a]))
  {
    if plan != [] && ids != [] {
      var tagged := Tag(plan, ids);
      if HighRisk(plan[0].risk) {
        TagHighSteps(plan[1..], ids[1..]);
        assert tagged[1..] == Tag(plan[1..], ids[1..]);
        assert HighSteps(tagged) == [tagged[0]] + HighSteps(tagged[1..]);
      } else {
        TagHighSteps(plan[1..], ids);
        assert tagged[1..] == Tag(plan[1..], ids);
        assert HighSteps(tagged) == HighSteps(tagged[1..]);
      }
    }
  }

  /** The first n ids hold requests for their steps; the others are still unused. */
  ghost predicate Requested(g: Gate, steps: seq<PlanStep>, ids: seq<string>, n: nat)
    requires n <= |ids| <= |steps|
  {
    && (forall a :: 0 <= a < n ==> ids[a] in g.requests && g.requests[ids[a]].riskLevel == steps[a].risk
                                   && g.requests[ids[a]].operation == steps[a].action)
    && (forall a :: n <= a < |ids| ==> ids[a] !in g.requests)
  }

  /** The first n requests are there exactly as created. */
  ghost predicate Created(g: Gate, steps: seq<PlanStep>, ids: seq<string>, timeout: real, now: real, n: nat)
    requires n <= |ids| <= |steps|
  {
    && (forall a :: 0 <= a < n ==> ids[a] in g.requests && g.requests[ids[a]] == AsCreated(g.autoApprove, steps[a], ids[a], timeout, now))
    && (forall a :: n <= a < |ids| ==> ids[a] !in g.requests)
  }

  ghost function AsCreated(auto: bool, step: PlanStep, id: string, timeout: real, now: real): Request {
    NewRequest(auto, id, "unknown", step.action, step.risk, timeout, now)
  }

  lemma CreateOne(g: Gate, steps: seq<PlanStep>, ids: seq<string>, timeout: real, now: real, n: nat)
    requires n < |ids| <= |steps| && Created(g, steps, ids, timeout, now, n)
    requires NoDuplicates(ids)
    ensures Created(Apply(g, RequestOp(steps[n], ids[n], timeout, now)).0, steps, ids, timeout, now, n + 1)
  {}

  lemma {:induction false} CreationRequests(g: Gate, steps: seq<PlanStep>, ids: seq<string>, timeout: real, now: real, n: nat)
    requires n <= |ids| <= |steps| && Requested(g, steps, ids, 0)
    requires NoDuplicates(ids)
    ensures Created(After(g, RequestOps(steps, ids, timeout, now), n), steps, ids, timeout, now, n)
  {
    if n > 0 {
      CreationRequests(g, steps, ids, timeout, now, n - 1);
      CreateOne(After(g, RequestOps(steps, ids, timeout, now), n - 1), steps, ids, timeout, now, n - 1);
    }
  }

  lemma CreatedAreRequested(g: Gate, steps: seq<PlanStep>, ids: seq<string>, timeout: real, now: real)
    requires |ids| <= |steps| && Created(g, steps, ids, timeout, now, |ids|)
    ensures Requested(g, steps, ids, |ids|)
  {}

  /** Later calls that create nothing under a used id keep every request there, at its risk level. */
  lemma RequestedForever(g: Gate, steps: seq<PlanStep>, ids: seq<string>, ops: seq<GateOp>)
    requires |ids| <= |steps| && Requested(g, steps, ids, |ids|) && GateInv(g) && FreshIds(g, ops)
    ensures Requested(AfterAll(g, ops), steps, ids, |ids|) && GateInv(AfterAll(g, ops))
  {
    RunKeepsInv(g, ops, |ops|);
    forall a | 0 <= a < |ids|
      ensures ids[a] in AfterAll(g, ops).requests && AfterAll(g, ops).requests[ids[a]].riskLevel == steps[a].risk
      ensures AfterAll(g, ops).requests[ids[a]].operation == steps[a].action
    {
      TermsForever(g, ops, |ops|, ids[a]);
    }
  }

  lemma ChecksAreFresh(g: Gate, ids: seq<string>, now: real)
    ensures FreshIds(g, CheckOps(ids, now))
  {}

  /** The gate as the node's status checks find and leave it. */
  ghost function CheckedHitlGate(s: AgentState, g: Gate, i: HitlInput): Gate
    requires |i.ids| == |HighSteps(s.plan)|
  {
    AfterAll(AfterAll(AfterAll(g, RequestOps(HighSteps(s.plan), i.ids, i.timeout, i.now)), i.between),
             CheckOps(i.ids, i.later))
  }

  lemma HitlRequested(s: AgentState, g: Gate, i: HitlInput)
    requires GateInv(g) && AllowedHitl(s, g, i)
    ensures var g' := CheckedHitlGate(s, g, i);
            Requested(g', HighSteps(s.plan), i.ids, |i.ids|) && GateInv(g')
  {
    var high := HighSteps(s.plan);
    var ops := RequestOps(high, i.ids, i.timeout, i.now);
    CreationRequests(g, high, i.ids, i.timeout, i.now, |i.ids|);
    RunKeepsInv(g, ops, |ops|);
    var g1 := AfterAll(g, ops);
    CreatedAreRequested(g1, high, i.ids, i.timeout, i.now);
    RequestedForever(g1, high, i.ids, i.between);
    ChecksAreFresh(AfterAll(g1, i.between), i.ids, i.later);
    RequestedForever(AfterAll(g1, i.between), high, i.ids, CheckOps(i.ids, i.later));
  }

  /** The gate as the status checks find it: the requests are made, and others have acted. */
  ghost function OpenHitlGate(s: AgentState, g: Gate, i: HitlInput): Gate
    requires |i.ids| == |HighSteps(s.plan)|
  {
    AfterAll(AfterAll(g, RequestOps(HighSteps(s.plan), i.ids, i.timeout, i.now)), i.between)
  }

  /** The request is refused at the check: rejected, timed out, or open past its deadline. */
  ghost predicate RefusedBy(g: Gate, id: string, now: real) {
    && id in g.requests
    && var r := g.requests[id];
    r.status in {Rejected, TimedOut} || (r.status == Pending && now - r.createdAt > r.timeout)
  }

  ghost predicate ApprovedIn(g: Gate, id: string) { id in g.requests && g.requests[id].status in {Approved, AutoApproved} }

  lemma {:induction false} ChecksTimeOut(g: Gate, ids: seq<string>, now: real, n: nat, id: string)
    requires n <= |ids| && id in g.requests
    ensures var r, g' := g.requests[id], After(g, CheckOps(ids, now), n);
            && id in g'.requests
            && g'.requests[id] == if id in ids[..n] && r.status == Pending && now - r.createdAt > r.timeout
                                  then r.(status := TimedOut, resolvedAt := Some(now)) else r
  {
    if n > 0 {
      ChecksTimeOut(g, ids, now, n - 1, id);
      if ids[n - 1] == id { CheckExactly(After(g, CheckOps(ids, now), n - 1), id, now); }
      assert ids[..n] == ids[..n - 1] + [ids[n - 1]];
    }
  }

  lemma VerdictIs(g: Gate, ids: seq<string>, now: real)
    requires forall a :: 0 <= a < |ids| ==> ids[a] in g.requests
    ensures var g' := AfterAll(g, CheckOps(ids, now));
            && (forall a :: 0 <= a < |ids| ==> (IsCleared(g', ids[a]) <==> ApprovedIn(g, ids[a])))
            && Verdict(g', ids) == if exists a :: 0 <= a < |ids| && RefusedBy(g, ids[a], now) then "rejected"
                                   else if forall a :: 0 <= a < |ids| ==> ApprovedIn(g, ids[a]) then "approved" else "pending"
  {
    var g' := AfterAll(g, CheckOps(ids, now));
    forall a | 0 <= a < |ids|
      ensures IsRefused(g', ids[a]) <==> RefusedBy(g, ids[a], now)
      ensures IsCleared(g', ids[a]) <==> ApprovedIn(g, ids[a])
    {
      ChecksTimeOut(g, ids, now, |ids|, ids[a]);
      assert ids[..|ids|] == ids;
    }
  }

  /**
   The approval node, from the gate as its checks find it: rejected when some request is rejected,
   timed out or open past its deadline, else approved when all are approved, else pending. An
   exception leaves the status open. Without high-risk steps it approves and asks nobody.
   */
  lemma HitlStatusExactly(s: AgentState, g: Gate, i: HitlInput)
    requires AllowedHitl(s, g, i) && s.hitlStatus == None && GateInv(g)
    ensures var after, asks := Swallow(Hitl(s, g, i).0), exists j :: 0 <= j < |s.plan| && s.plan[j].risk in {"high", "critical"};
            && after.hitlRequired == Some(asks)
            && after.hitlStatus ==
                 if !asks then Some("approved")
                 else if i.crash != NoCrash then None
                 else if exists a :: 0 <= a < |i.ids| && RefusedBy(OpenHitlGate(s, g, i), i.ids[a], i.later) then Some("rejected")
                 else if forall a :: 0 <= a < |i.ids| ==> ApprovedIn(OpenHitlGate(s, g, i), i.ids[a]) then Some("approved")
                 else Some("pending")
    ensures HighSteps(s.plan) == [] ==> Hitl(s, g, i).1 == g
  {
    SomeHighStep(s.plan);
    HitlReturns(s, g, i);
    if HighSteps(s.plan) != [] && i.crash == NoCrash {
      HitlOpen(s, g, i);
      VerdictIs(OpenHitlGate(s, g, i), i.ids, i.later);
    }
  }

  lemma HitlReturns(s: AgentState, g: Gate, i: HitlInput)
    requires |i.ids| == |HighSteps(s.plan)| && s.hitlStatus == None
    ensures Swallow(Hitl(s, g, i).0).hitlRequired == Some(HighSteps(s.plan) != [])
    ensures Swallow(Hitl(s, g, i).0).hitlStatus ==
              if HighSteps(s.plan) == [] then Some("approved") else if i.crash != NoCrash then None
              else Some(Verdict(AfterAll(OpenHitlGate(s, g, i), CheckOps(i.ids, i.later)), i.ids))
    ensures HighSteps(s.plan) == [] ==> Hitl(s, g, i).1 == g
  {}

  /** A plan that was approved or rejected before is not asked for again; with any other status it is. */
  lemma HitlDecidedStays(s: AgentState, g: Gate, i: HitlInput)
    requires |i.ids| == |HighSteps(s.plan)| > 0
    ensures s.hitlStatus in {Some("approved"), Some("rejected")} ==> Hitl(s, g, i) == (Returned(s.(hitlRequired := Some(true))), g)
    ensures s.hitlStatus !in {Some("approved"), Some("rejected")} && i.crash == NoCrash ==>
              Swallow(Hitl(s, g, i).0).plan == Tag(s.plan, i.ids)
  {}

  /** Each high-risk step is asked for once, with its own action and risk, and carries that request's id; the others stay. */
  lemma RequestsMatchSteps(s: AgentState, g: Gate, i: HitlInput)
    requires AllowedHitl(s, g, i)
    ensures var high, g' := HighSteps(s.plan), AfterAll(g, RequestOps(HighSteps(s.plan), i.ids, i.timeout, i.now));
            forall a :: 0 <= a < |high| ==>
              && i.ids[a] in g'.requests
              && var r := g'.requests[i.ids[a]];
              && r.sessionId == "unknown" && r.operation == high[a].action && r.riskLevel == high[a].risk && r.createdAt == i.now
              && r.timeout == (if i.timeout < 600.0 then 600.0 else i.timeout)
              && (r.kind == Dual <==> high[a].risk == "critical")
              && r.status == if g.autoApprove then AutoApproved else Pending
    ensures var tagged := Tag(s.plan, i.ids);
            && |tagged| == |s.plan|
            && forall j :: 0 <= j < |s.plan| ==>
                 tagged[j] == if s.plan[j].risk in {"high", "critical"} && HighBefore(s.plan, j) < |i.ids|
                              then s.plan[j].(approvalId := Some(i.ids[HighBefore(s.plan, j)])) else s.plan[j]
  {
    var high := HighSteps(s.plan);
    CreationRequests(g, high, i.ids, i.timeout, i.now, |i.ids|);
    forall a | 0 <= a < |high| ensures high[a].risk in {"high", "critical"} { HighStepsAre(s.plan, high[a]); }
    RunGateMode(g, RequestOps(high, i.ids, i.timeout, i.now), |i.ids|);
    TaggedAt(s.plan, i.ids);
  }

  lemma {:induction false} RunGateMode(g: Gate, ops: seq<GateOp>, n: nat)
    requires n <= |ops|
    ensures After(g, ops, n).autoApprove == g.autoApprove
  {
    if n > 0 { RunGateMode(g, ops, n - 1); }
  }

  lemma {:induction false} TaggedAt(plan: seq<PlanStep>, ids: seq<string>)
    ensures |Tag(plan, ids)| == |plan|
    ensures forall j :: 0 <= j < |plan| ==>
              Tag(plan, ids)[j] == if plan[j].risk in {"high", "critical"} && HighBefore(plan, j) < |ids|
                                   then plan[j].(approvalId := Some(ids[HighBefore(plan, j)])) else plan[j]
  {
    if plan != [] && ids != [] {
      var rest := if plan[0].risk in {"high", "critical"} then ids[1..] else ids;
      TaggedAt(plan[1..], rest);
      forall j | 0 <= j < |plan|
        ensures Tag(plan, ids)[j] == if plan[j].risk in {"high", "critical"} && HighBefore(plan, j) < |ids|
                                     then plan[j].(approvalId := Some(ids[HighBefore(plan, j)])) else plan[j]
      {
        if j > 0 { HighBeforeTail(plan, j); }
      }
    }
  }

  /**
   The approval node leads to remediation exactly when nothing is raised and every new request is
   approved when it is checked; pending, rejected, timed-out and raising outcomes lead to report.
   */
  lemma HitlApprovesExactly(s: AgentState, g: Gate, i: HitlInput)
    requires GateInv(g) && AllowedHitl(s, g, i) && s.hitlStatus == None && HighSteps(s.plan) != []
    ensures RouteFromHitl(Swallow(Hitl(s, g, i).0)) == RemediationNode
            <==> i.crash == NoCrash && forall a :: 0 <= a < |i.ids| ==> ApprovedIn(OpenHitlGate(s, g, i), i.ids[a])
    ensures i.crash == NoCrash ==>
              forall a :: 0 <= a < |i.ids| ==>
                (IsCleared(CheckedHitlGate(s, g, i), i.ids[a]) <==> ApprovedIn(OpenHitlGate(s, g, i), i.ids[a]))
  {
    assert "approved"[0] == 'a' && "rejected"[0] == 'r' && "pending"[0] == 'p';
    SomeHighStep(s.plan);
    HitlStatusExactly(s, g, i);
    HitlOpen(s, g, i);
    VerdictIs(OpenHitlGate(s, g, i), i.ids, i.later);
  }

  lemma HitlOpen(s: AgentState, g: Gate, i: HitlInput)
    requires GateInv(g) && AllowedHitl(s, g, i)
    ensures forall a :: 0 <= a < |i.ids| ==> i.ids[a] in OpenHitlGate(s, g, i).requests
  {
    var high := HighSteps(s.plan);
    var ops := RequestOps(high, i.ids, i.timeout, i.now);
    CreationRequests(g, high, i.ids, i.timeout, i.now, |i.ids|);
    RunKeepsInv(g, ops, |ops|);
    CreatedAreRequested(AfterAll(g, ops), high, i.ids, i.timeout, i.now);
    RequestedForever(AfterAll(g, ops), high, i.ids, i.between);
  }

  lemma HitlPlanApproved(s: AgentState, g: Gate, i: HitlInput)
    requires GateInv(g) && AllowedHitl(s, g, i) && s.hitlStatus == None && HighSteps(s.plan) != []
    requires RouteFromHitl(Swallow(Hitl(s, g, i).0)) == RemediationNode
    ensures PlanApproved(Swallow(Hitl(s, g, i).0).plan, Hitl(s, g, i).1)
  {
    HitlApprovesExactly(s, g, i);
    HitlRequested(s, g, i);
    TagHighSteps(s.plan, i.ids);
  }

  /** With automatic approval off and nobody acting between creation and check, the node never approves. */
  lemma UnattendedHitlNeverApproves(s: AgentState, g: Gate, i: HitlInput)
    requires GateInv(g) && AllowedHitl(s, g, i) && s.hitlStatus == None && HighSteps(s.plan) != []
    requires !g.autoApprove && i.between == []
    ensures RouteFromHitl(Swallow(Hitl(s, g, i).0)) == Report
  {
    var high := HighSteps(s.plan);
    var ops := RequestOps(high, i.ids, i.timeout, i.now);
    var g1 := AfterAll(g, ops);
    RunKeepsInv(g, ops, |ops|);
    CreationRequests(g, high, i.ids, i.timeout, i.now, |i.ids|);
    assert AfterAll(g1, i.between) == g1;
    assert g1.requests[i.ids[0]].status == Pending;
    ChecksNeverApprove(g1, CheckOps(i.ids, i.later), |i.ids|, i.ids[0]);
    HitlApprovesExactly(s, g, i);
  }

  lemma {:induction false} ChecksNeverApprove(g: Gate, ops: seq<GateOp>, n: nat, id: string)
    requires n <= |ops| && (forall k :: 0 <= k < |ops| ==> ops[k].Check?) && !IsCleared(g, id)
    ensures !IsCleared(After(g, ops, n), id)
  {
    if n > 0 { ChecksNeverApprove(g, ops, n - 1, id); }
  }

  // ---------------------------------------------------------------- approval safety of runs

  ghost predicate ApprovalInv(c: Config) {
    && GateInv(c.gate)
    && (Phase(c.node) <= 4 ==> c.state.hitlStatus == None)
    && (c.node == HitlNode ==> HighSteps(c.state.plan) != [])
    && (c.node == RemediationNode ==> PlanApproved(c.state.plan, c.gate))
  }

  /** Only the approval node writes the approval status, and only it touches the gate. */
  lemma ExecuteApproval(node: Node, s: AgentState, g: Gate, settings: Settings, i: Input)
    requires node == HitlNode ==> |i.hitl.ids| == |HighSteps(s.plan)|
    requires node != HitlNode
    ensures var (s', g') := Execute(node, s, g, settings, i); s'.hitlStatus == s.hitlStatus && g' == g
  {}

  lemma {:induction false} HitlKeepsGate(s: AgentState, g: Gate, i: HitlInput)
    requires GateInv(g) && |i.ids| == |HighSteps(s.plan)|
    ensures GateInv(Hitl(s, g, i).1) && Hitl(s, g, i).1.autoApprove == g.autoApprove
  {
    var high := HighSteps(s.plan);
    if i.crash.WhileCreating? {
      var ops := RequestOps(high, Prefix(i.ids, i.crash.done), i.timeout, i.now);
      RunKeepsInv(g, ops, |ops|);
    } else {
      var ops := RequestOps(high, i.ids, i.timeout, i.now);
      RunKeepsInv(g, ops, |ops|);
      RunKeepsInv(AfterAll(g, ops), i.between, |i.between|);
      var g2 := AfterAll(AfterAll(g, ops), i.between);
      var checks := CheckOps(if i.crash.WhileChecking? then Prefix(i.ids, i.crash.done) else i.ids, i.later);
      RunKeepsInv(g2, checks, |checks|);
    }
  }

  lemma StepApproval(c: Config, settings: Settings, i: Input)
    requires Allowed(c, i) && ApprovalInv(c) && c.node != End
    ensures ApprovalInv(Step(c, settings, i))
  {
    var g := AfterAll(c.gate, i.others);
    RunKeepsInv(c.gate, i.others, |i.others|);
    StepPhase(c, settings, i);
    if c.node == HitlNode {
      HitlKeepsGate(c.state, g, i.hitl);
      if Step(c, settings, i).node == RemediationNode { HitlPlanApproved(c.state, g, i.hitl); }
    } else {
      ExecuteApproval(c.node, c.state, g, settings, i);
    }
  }

  lemma {:induction false} RunApproval(run: seq<Config>, settings: Settings, inputs: seq<Input>, k: nat)
    requires IsFreshRun(run, settings, inputs) && k < |run|
    ensures ApprovalInv(run[k])
  {
    if k > 0 {
      RunApproval(run, settings, inputs, k - 1);
      if run[k - 1].node != End { StepApproval(run[k - 1], settings, inputs[k - 1]); }
    }
  }

  /**
   In every run from a fresh state, when remediation is reached every high and critical step of the
   plan has a request of its own, of its own risk level, that is approved; a critical one by two
   different people unless approval is automatic.
   */
  lemma RemediationOnlyWhenApproved(run: seq<Config>, settings: Settings, inputs: seq<Input>, k: nat)
    requires IsFreshRun(run, settings, inputs) && k < |run| && run[k].node == RemediationNode
    ensures var plan := run[k].state.plan;
            && (forall j :: 0 <= j < |plan| && plan[j].risk in {"high", "critical"} ==> StepApproved(plan[j], run[k].gate))
            && (forall j, m :: 0 <= j < m < |plan| && plan[j].risk in {"high", "critical"} && plan[m].risk in {"high", "critical"} ==>
                  plan[j].approvalId != plan[m].approvalId)
    ensures PlanApproved(run[k].state.plan, run[k].gate)
  {
    var plan := run[k].state.plan;
    RunApproval(run, settings, inputs, k);
    forall j | 0 <= j < |plan| && plan[j].risk in {"high", "critical"} ensures StepApproved(plan[j], run[k].gate) {
      HighStepAt(plan, j);
    }
    forall j, m | 0 <= j < m < |plan| && plan[j].risk in {"high", "critical"} && plan[m].risk in {"high", "critical"}
      ensures plan[j].approvalId != plan[m].approvalId
    {
      HighStepAt(plan, j);
      HighStepAt(plan, m);
      HighBeforeGrows(plan, j, m);
    }
  }

  /** And it stays so while remediation runs, whatever others do at the gate. */
  lemma ApprovalOutlastsOthers(plan: seq<PlanStep>, g: Gate, others: seq<GateOp>)
    requires PlanApproved(plan, g) && FreshIds(g, others)
    ensures PlanApproved(plan, AfterAll(g, others))
  {
    var high := HighSteps(plan);
    forall a | 0 <= a < |high| ensures StepApproved(high[a], AfterAll(g, others)) {
      ResolvedForever(g, others, |others|, high[a].approvalId.value);
    }
  }

  ghost predicate Manual(c: Config) { GateInv(c.gate) && !c.gate.autoApprove && c.node != RemediationNode }

  lemma StepManual(c: Config, settings: Settings, i: Input)
    requires Allowed(c, i) && Manual(c) && ApprovalInv(c) && c.node != End && i.hitl.between == []
    ensures Manual(Step(c, settings, i))
  {
    var g := AfterAll(c.gate, i.others);
    RunKeepsInv(c.gate, i.others, |i.others|);
    if c.node == HitlNode {
      HitlKeepsGate(c.state, g, i.hitl);
      UnattendedHitlNeverApproves(c.state, g, i.hitl);
    } else {
      StepPhase(c, settings, i);
      ExecuteApproval(c.node, c.state, g, settings, i);
      OnlyHitlRemediates(c, settings, i);
    }
  }

  lemma OnlyHitlRemediates(c: Config, settings: Settings, i: Input)
    requires Allowed(c, i) && c.node != HitlNode
    ensures Step(c, settings, i).node == RemediationNode ==> c.node == RemediationNode
  {}

  /**
   Outside development mode an uninterrupted run never reaches remediation unless somebody acts at
   the gate in the instant between the creation of the requests and their check.
   */
  lemma {:induction false} UnattendedRunsNeverRemediate(run: seq<Config>, settings: Settings, inputs: seq<Input>, k: nat)
    requires IsFreshRun(run, settings, inputs) && k < |run|
    requires !run[0].gate.autoApprove && forall j :: 0 <= j < |inputs| ==> inputs[j].hitl.between == []
    ensures Manual(run[k])
  {
    if k > 0 {
      UnattendedRunsNeverRemediate(run, settings, inputs, k - 1);
      RunApproval(run, settings, inputs, k - 1);
      if run[k - 1].node != End { StepManual(run[k - 1], settings, inputs[k - 1]); }
    }
  }

  // ---------------------------------------------------------------- nothing is executed

  ghost predicate Unexecuted(plan: seq<PlanStep>) {
    forall step :: step in plan ==> step.tool == "" && step.execution in {NotProcessed, Suggested}
  }

  lemma {:induction false} TagUnexecuted(plan: seq<PlanStep>, ids: seq<string>)
    requires Unexecuted(plan)
    ensures Unexecuted(Tag(plan, ids))
  {
    if plan != [] && ids != [] {
      assert plan == [plan[0]] + plan[1..];
      TagUnexecuted(plan[1..], if HighRisk(plan[0].risk) then ids[1..] else ids);
    }
  }

  lemma ExecuteUnexecuted(node: Node, s: AgentState, g: Gate, settings: Settings, i: Input)
    requires node == HitlNode ==> |i.hitl.ids| == |HighSteps(s.plan)|
    requires Unexecuted(s.plan)
    ensures Unexecuted(Execute(node, s, g, settings, i).0.plan)
  {
    if node == HitlNode {
      TagUnexecuted(s.plan, i.hitl.ids);
      TagUnexecuted(s.plan, Prefix(i.hitl.ids, if i.hitl.crash.WhileCreating? then i.hitl.crash.done else 0));
    }
  }

  /**
   No run of the graph executes any remediation step, in any environment: the diagnostic node never
   gives a step a tool name. This holds even with a tool client, which the graph does not hand over.
   */
  lemma {:induction false} NoRunExecutes(run: seq<Config>, settings: Settings, inputs: seq<Input>, k: nat)
    requires IsFreshRun(run, settings, inputs) && k < |run|
    ensures Unexecuted(run[k].state.plan)
  {
    if k > 0 {
      NoRunExecutes(run, settings, inputs, k - 1);
      var c, i := run[k - 1], inputs[k - 1];
      if c.node != End { ExecuteUnexecuted(c.node, c.state, AfterAll(c.gate, i.others), settings, i); }
    }
  }

  // ---------------------------------------------------------------- the bound is reached

  const RISKY := Draft(1, "restart", "high", true, "", "")

  /** Correlated alerts, the longest plan, and a diagnosis that asks for more data until the given round. */
  function LongInput(round: int): Input {
    Input(TriageInput(NoMatch, Some("alert_correlation")), PlanAnswered(5, ["metrics"]),
          if round < 4 then DiagnosticInput(Complete, 0.5, [], ["metrics"]) else DiagnosticInput(Complete, 0.9, [RISKY], []),
          HitlInput(["request"], 1800.0, 0.0, [], 1.0, NoCrash),
          RemediationInput([], None), false, 0, [])
  }

  /** The inputs of the long run: rounds 1 to 4 are its steps 3 to 6. */
  function LongInputs(): seq<Input> { seq(11, k => LongInput(k - 2)) }

  function LongState(k: nat): AgentState {
    var s0 := InitialState("alert", 0);
    if k == 0 then s0
    else
      var s1 := s0.(route := Some("alert_correlation"));
      if k <= 2 then s1
      else
        var s3 := s1.(requirements := ["metrics"]);
        if k == 3 then s3
        else if k <= 6 then s3.(round := k - 3, confidence := 0.5)
        else
          var s7 := s3.(round := 4, confidence := 0.9, requirements := [], plan := [FromDraft(RISKY)]);
          if k == 7 then s7
          else
            var s8 := s7.(hitlRequired := Some(true), hitlStatus := Some("approved"),
                          plan := [FromDraft(RISKY).(approvalId := Some("request"))]);
            if k == 8 then s8
            else s8.(plan := ProcessPlan(s8.plan, Settings(true, false), s8.hitlStatus, [], 1))
  }

  function LongNode(k: nat): Node {
    if k == 0 then TriageNode else if k == 1 then AlertCorrelation else if k == 2 then PlanningNode
    else if k <= 6 then DiagnosticNode else if k == 7 then HitlNode else if k == 8 then RemediationNode
    else if k == 9 then Report else if k == 10 then KnowledgeSink else End
  }

  function LongGate(k: nat): Gate {
    Gate(true, if k <= 7 then map[]
               else map["request" := NewRequest(true, "request", "unknown", "restart", "high", 1800.0, 0.0)])
  }

  ghost function LongRun(): seq<Config> { seq(12, k requires 0 <= k < 12 => Config(LongNode(k), LongState(k), LongGate(k))) }

  lemma LongPlan()
    ensures FromDrafts([]) == [] && HighSteps([]) == []
    ensures FromDrafts([RISKY]) == [FromDraft(RISKY)]
    ensures HighSteps([FromDraft(RISKY)]) == [FromDraft(RISKY)]
    ensures Tag([FromDraft(RISKY)], ["request"]) == [FromDraft(RISKY).(approvalId := Some("request"))]
  {
    assert HighSteps([FromDraft(RISKY)]) == [FromDraft(RISKY)] + HighSteps([]);
  }

  lemma OneCall(g: Gate, op: GateOp)
    ensures AfterAll(g, [op]) == Apply(g, op).0
  {
    assert After(g, [op], 0) == g;
  }

  lemma LongHitl(g: Gate, i: HitlInput)
    requires g == Gate(true, map[]) && i == HitlInput(["request"], 1800.0, 0.0, [], 1.0, NoCrash)
    ensures AllowedHitl(LongState(7), g, i)
    ensures Hitl(LongState(7), g, i) == (Returned(LongState(8)), LongGate(8))
  {
    LongPlan();
    var ops := RequestOps([FromDraft(RISKY)], ["request"], 1800.0, 0.0);
    assert ops == [Create("request", "unknown", "restart", "high", 1800.0, 0.0)];
    var r := NewRequest(true, "request", "unknown", "restart", "high", 1800.0, 0.0);
    OneCall(g, ops[0]);
    assert AfterAll(g, ops) == Apply(g, ops[0]).0 == Gate(true, map["request" := r]);
    var g2 := AfterAll(AfterAll(g, ops), []);
    var checks := CheckOps(["request"], 1.0);
    assert checks == [Check("request", 1.0)];
    OneCall(g2, checks[0]);
    assert AfterAll(g2, checks) == g2;
    assert IsCleared(g2, "request");
  }

  lemma LongStep(k: nat)
    requires k < 11
    ensures var c := Config(LongNode(k), LongState(k), LongGate(k));
            Allowed(c, LongInput(k - 2))
            && Step(c, Settings(true, false), LongInput(k - 2)) == Config(LongNode(k + 1), LongState(k + 1), LongGate(k + 1))
  {
    var c, i := Config(LongNode(k), LongState(k), LongGate(k)), LongInput(k - 2);
    assert AfterAll(c.gate, i.others) == c.gate;
    LongPlan();
    if k == 7 { LongHitl(c.gate, i.hitl); }
  }

  lemma LongStepAt(k: nat)
    requires k < 11
    ensures Allowed(LongRun()[k], LongInputs()[k])
    ensures LongRun()[k + 1] == Step(LongRun()[k], Settings(true, false), LongInputs()[k])
  {
    LongStep(k);
  }

  lemma StepsMakeRun(run: seq<Config>, settings: Settings, inputs: seq<Input>)
    requires |run| == |inputs| + 1
    requires forall k :: 0 <= k < |inputs| ==> Allowed(run[k], inputs[k]) && run[k + 1] == Step(run[k], settings, inputs[k])
    ensures IsRun(run, settings, inputs)
  {}

  lemma LongStart()
    ensures LongRun()[0] == Config(TriageNode, InitialState("alert", 0), Gate(true, map[])) && GateInv(LongRun()[0].gate)
  {}

  lemma LongRunIsFresh()
    ensures IsFreshRun(LongRun(), Settings(true, false), LongInputs())
  {
    forall k | 0 <= k < 11
      ensures Allowed(LongRun()[k], LongInputs()[k])
      ensures LongRun()[k + 1] == Step(LongRun()[k], Settings(true, false), LongInputs()[k])
    {
      LongStepAt(k);
    }
    StepsMakeRun(LongRun(), Settings(true, false), LongInputs());
    LongStart();
  }

  lemma {:induction false} LongCount(n: nat)
    requires n <= 12
    ensures CountExecutions(LongRun(), n) == if n == 12 then 11 else n
  {
    if n > 0 { LongCount(n - 1); }
  }

  /** Eleven executions do happen: the bound is tight. */
  lemma ElevenIsReached()
    ensures exists run, settings, inputs :: IsFreshRun(run, settings, inputs) && CountExecutions(run, |run|) == 11
  {
    LongRunIsFresh();
    LongCount(12);
  }
}
