/**
 The shared state of the agent graph and what each node does to it. A node's outside world
 (language model, tools, rule engine, exceptions) is an input; `Raised` is an exception that
 escapes the node's own handling and reaches the base class.
 */
module AgentState {
  import opened Wrappers
  import opened HitlGate

  datatype Execution = NotProcessed | Suggested | Executed | Failed

  datatype PlanStep = PlanStep(
    number: int, action: string, risk: string, requiresApproval: bool, rollback: string, impact: string,
    tool: string, approvalId: Option<string>, execution: Execution)

  datatype AgentState = AgentState(
    requestType: string, alerts: nat,
    route: Option<string>,
    requirements: seq<string>, round: int, maxRounds: int,
    confidence: real, plan: seq<PlanStep>,
    hitlRequired: Option<bool>, hitlStatus: Option<string>,
    tokens: nat, errors: nat)

  /** `create_initial_state`; a missing list or number reads as empty or zero everywhere. */
  function InitialState(requestType: string, alerts: nat): AgentState {
    AgentState(requestType, alerts, None, [], 0, 5, 0.0, [], None, None, 0, 0)
  }

  datatype NodeResult = Returned(state: AgentState) | Raised(state: AgentState)

  /** The base class: an exception is counted and the state goes on as it was left. */
  function Swallow(result: NodeResult): AgentState {
    match result
    case Returned(s) => s
    case Raised(s) => s.(errors := s.errors + 1)
  }

  // ---------------------------------------------------------------- triage

  datatype RuleOutcome = NoMatch | Matched | RuleRaised

  /** The rule engine's outcome, and the language model's route unless it is absent or fails. */
  datatype TriageInput = TriageInput(rules: RuleOutcome, llmRoute: Option<string>)

  function PostCorrections(s: AgentState): AgentState {
    var s1 := if s.alerts >= 3 && s.route != Some("alert_correlation") then s.(route := Some("alert_correlation")) else s;
    if s1.requestType == "alert" && s1.route == Some("direct_tool") then s1.(route := Some("diagnosis")) else s1
  }

  function Triage(s: AgentState, i: TriageInput): NodeResult {
    if s.requestType == "user_query" && i.rules.RuleRaised? then Raised(s)
    else if s.requestType == "user_query" && i.rules.Matched? then Returned(s.(route := Some("direct_tool")))
    else Returned(PostCorrections(s.(route := Some(if i.llmRoute.Some? then i.llmRoute.value else "diagnosis"))))
  }

  // ---------------------------------------------------------------- planning

  type Rounds = x: int | 1 <= x <= 5 witness 1

  datatype PlanningInput =
    | PlanAnswered(estimate: Rounds, needed: seq<string>)
    | PlanFallback(wroteEstimate: Option<Rounds>, needed: seq<string>)
    | PlanRaised

  function RoundLimit(estimate: Rounds): int { if estimate + 1 <= 5 then estimate + 1 else 5 }

  function Planning(s: AgentState, i: PlanningInput): NodeResult {
    match i
    case PlanAnswered(estimate, needed) => Returned(s.(requirements := needed, maxRounds := RoundLimit(estimate)))
    case PlanFallback(wrote, needed) =>
      Returned(s.(requirements := needed, maxRounds := if wrote.Some? then RoundLimit(wrote.value) else s.maxRounds))
    case PlanRaised => Raised(s)
  }

  // ---------------------------------------------------------------- diagnostic

  /** How far the round gets before an exception, if there is one. */
  datatype Progress = BeforeDiagnosis | AfterDiagnosis | AfterPlan | Complete

  datatype Draft = Draft(number: int, action: string, risk: string, requiresApproval: bool, rollback: string, impact: string)

  datatype DiagnosticInput = DiagnosticInput(progress: Progress, confidence: real, drafts: seq<Draft>, needed: seq<string>)

  /** The node copies six fields of each suggested step; a tool name is not among them. */
  function FromDraft(d: Draft): PlanStep {
    PlanStep(d.number, d.action, d.risk, d.requiresApproval, d.rollback, d.impact, "", None, NotProcessed)
  }

  function FromDrafts(drafts: seq<Draft>): seq<PlanStep> {
    seq(|drafts|, i requires 0 <= i < |drafts| => FromDraft(drafts[i]))
  }

  function Diagnostic(s: AgentState, i: DiagnosticInput): NodeResult {
    var s1 := s.(round := s.round + 1);
    if i.progress.BeforeDiagnosis? then Raised(s1)
    else
      var s2 := s1.(confidence := i.confidence);
      if i.progress.AfterDiagnosis? then Raised(s2)
      else
        var s3 := s2.(plan := FromDrafts(i.drafts));
        if i.progress.AfterPlan? then Raised(s3)
        else Returned(s3.(requirements := if i.needed != [] && i.confidence < 0.6 then i.needed else []))
  }

  // ---------------------------------------------------------------- approval gate

  /** The plan's high and critical steps, in order. */
  function HighSteps(plan: seq<PlanStep>): seq<PlanStep> {
    if plan == [] then [] else (if HighRisk(plan[0].risk) then [plan[0]] else []) + HighSteps(plan[1..])
  }

  /** The plan with the first |ids| high-risk steps carrying their request's id. */
  function Tag(plan: seq<PlanStep>, ids: seq<string>): seq<PlanStep> {
    if plan == [] || ids == [] then plan
    else if HighRisk(plan[0].risk) then [plan[0].(approvalId := Some(ids[0]))] + Tag(plan[1..], ids[1..])
    else [plan[0]] + Tag(plan[1..], ids)
  }

  function RequestOp(step: PlanStep, id: string, timeout: real, now: real): GateOp {
    Create(id, "unknown", step.action, step.risk, timeout, now)
  }

  /** The calls that create one request per step. */
  function RequestOps(steps: seq<PlanStep>, ids: seq<string>, timeout: real, now: real): seq<GateOp>
    requires |ids| <= |steps|
  {
    seq(|ids|, i requires 0 <= i < |ids| => RequestOp(steps[i], ids[i], timeout, now))
  }

  function CheckOps(ids: seq<string>, now: real): seq<GateOp> {
    seq(|ids|, i requires 0 <= i < |ids| => Check(ids[i], now))
  }

  datatype HitlCrash = NoCrash | WhileCreating(done: nat) | WhileChecking(done: nat)

  /** Fresh ids, the clock, what others do at the gate between creation and check, and an exception. */
  datatype HitlInput = HitlInput(ids: seq<string>, timeout: real, now: real, between: seq<GateOp>, later: real, crash: HitlCrash)

  predicate IsCleared(g: Gate, id: string) {
    id in g.requests && (g.requests[id].status.Approved? || g.requests[id].status.AutoApproved?)
  }

  predicate IsRefused(g: Gate, id: string) {
    id in g.requests && (g.requests[id].status.Rejected? || g.requests[id].status.TimedOut?)
  }

  function Verdict(g: Gate, ids: seq<string>): string {
    if exists i :: 0 <= i < |ids| && IsRefused(g, ids[i]) then "rejected"
    else if forall i :: 0 <= i < |ids| ==> IsCleared(g, ids[i]) then "approved"
    else "pending"
  }

  function Prefix<T>(xs: seq<T>, n: nat): seq<T> { if n <= |xs| then xs[..n] else xs }

  ghost function AfterAll(g: Gate, ops: seq<GateOp>): Gate { After(g, ops, |ops|) }

  /** The node for a plan with high-risk steps and no decision yet. */
  ghost function HitlDecide(s: AgentState, g: Gate, i: HitlInput): (NodeResult, Gate)
    requires |i.ids| == |HighSteps(s.plan)|
  {
    var high := HighSteps(s.plan);
    if i.crash.WhileCreating? then
      var ids := Prefix(i.ids, i.crash.done);
      (Raised(s.(plan := Tag(s.plan, ids))), AfterAll(g, RequestOps(high, ids, i.timeout, i.now)))
    else
      var s2 := s.(plan := Tag(s.plan, i.ids));
      var g2 := AfterAll(AfterAll(g, RequestOps(high, i.ids, i.timeout, i.now)), i.between);
      if i.crash.WhileChecking? then
        (Raised(s2), AfterAll(g2, CheckOps(Prefix(i.ids, i.crash.done), i.later)))
      else
        var g3 := AfterAll(g2, CheckOps(i.ids, i.later));
        (Returned(s2.(hitlStatus := Some(Verdict(g3, i.ids)))), g3)
  }

  ghost function Hitl(s: AgentState, g: Gate, i: HitlInput): (NodeResult, Gate)
    requires |i.ids| == |HighSteps(s.plan)|
  {
    if HighSteps(s.plan) == [] then (Returned(s.(hitlRequired := Some(false), hitlStatus := Some("approved"))), g)
    else
      var s1 := s.(hitlRequired := Some(true));
      if s.hitlStatus in {Some("approved"), Some("rejected")} then (Returned(s1), g) else HitlDecide(s1, g, i)
  }

  // ---------------------------------------------------------------- remediation

  /** Environment and whether the node was given a tool client. */
  datatype Settings = Settings(dev: bool, hasTools: bool)

  /** Which tool calls succeed, and after how many steps an exception escapes, if one does. */
  datatype RemediationInput = RemediationInput(succeeds: seq<bool>, crashAfter: Option<nat>)

  const NO_ROLLBACK := "⚠️ 未指定回滚方案，需人工确认"

  predicate CanExecute(step: PlanStep, settings: Settings, hitlStatus: Option<string>) {
    && step.risk in (if settings.dev then {"none", "low", "medium"} else {"none", "low"})
    && settings.hasTools && step.tool != "" && hitlStatus != Some("rejected")
  }

  function ProcessStep(step: PlanStep, settings: Settings, hitlStatus: Option<string>, succeeds: bool): PlanStep {
    var s := step.(requiresApproval := step.requiresApproval || HighRisk(step.risk),
                   rollback := if step.rollback == "" then NO_ROLLBACK else step.rollback);
    s.(execution := if CanExecute(step, settings, hitlStatus) then (if succeeds then Executed else Failed) else Suggested)
  }

  /** The plan with its first n steps processed, in place. */
  function ProcessPlan(plan: seq<PlanStep>, settings: Settings, hitlStatus: Option<string>, succeeds: seq<bool>, n: nat): (r: seq<PlanStep>)
    ensures |r| == |plan|
  {
    seq(|plan|, i requires 0 <= i < |plan| =>
      if i < n then ProcessStep(plan[i], settings, hitlStatus, i < |succeeds| && succeeds[i]) else plan[i])
  }

  function Remediation(s: AgentState, settings: Settings, i: RemediationInput): NodeResult {
    if s.plan == [] then Returned(s)
    else if i.crashAfter.Some? then
      Raised(s.(plan := ProcessPlan(s.plan, settings, s.hitlStatus, i.succeeds, i.crashAfter.value)))
    else Returned(s.(plan := ProcessPlan(s.plan, settings, s.hitlStatus, i.succeeds, |s.plan|)))
  }

  /** What one processed step looks like afterwards, given which tools there are and what was decided. */
  ghost predicate ProcessedAs(step: PlanStep, settings: Settings, hitlStatus: Option<string>, succeeds: bool, after: PlanStep) {
    var runs := (step.risk in {"none", "low"} || (settings.dev && step.risk == "medium"))
                && settings.hasTools && step.tool != "" && hitlStatus != Some("rejected");
    && after.number == step.number && after.action == step.action && after.risk == step.risk && after.impact == step.impact
    && after.tool == step.tool && after.approvalId == step.approvalId
    && after.requiresApproval == (step.requiresApproval || step.risk in {"high", "critical"})
    && after.rollback != "" && (step.rollback != "" ==> after.rollback == step.rollback)
    && after.execution == if !runs then Suggested else if succeeds then Executed else Failed
  }

  /**
   Remediation processes the plan in place, in order, up to an exception: no high or critical step is
   ever executed, in any environment and with any approval status; those are marked as needing
   approval; every step has a rollback note, its own if it had one; the rest of the plan stays.
   */
  lemma RemediationIsControlled(s: AgentState, settings: Settings, i: RemediationInput)
    ensures var after := Swallow(Remediation(s, settings, i)).plan;
            && |after| == |s.plan|
            && (forall j :: 0 <= j < |after| ==>
                  if i.crashAfter.None? || j < i.crashAfter.value
                  then ProcessedAs(s.plan[j], settings, s.hitlStatus, j < |i.succeeds| && i.succeeds[j], after[j])
                  else after[j] == s.plan[j])
            && (forall j :: 0 <= j < |after| && s.plan[j].risk in {"high", "critical"} ==>
                  after[j] == s.plan[j] || (after[j].requiresApproval && after[j].execution == Suggested))
  {}
}
