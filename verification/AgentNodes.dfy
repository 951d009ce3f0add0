/**
 The nodes as they work: methods that write the fields of the one shared state object. Each is
 proved equal to its function on values. An exception that escapes `Process` is the result true.
 */
module AgentNodes {
  import opened Basics
  import opened Wrappers
  import opened HitlGate
  import opened AgentState

  class StateDict {
    const requestType: string
    const alerts: nat
    var route: Option<string>
    var requirements: seq<string>
    var round: int
    var maxRounds: int
    var confidence: real
    var plan: seq<PlanStep>
    var hitlRequired: Option<bool>
    var hitlStatus: Option<string>
    var tokens: nat
    var errors: nat

    constructor (requestType: string, alerts: nat)
      ensures View() == InitialState(requestType, alerts)
    {
      this.requestType, this.alerts := requestType, alerts;
      route, requirements, round, maxRounds, confidence := None, [], 0, 5, 0.0;
      plan, hitlRequired, hitlStatus, tokens, errors := [], None, None, 0, 0;
    }

    ghost function View(): AgentState
      reads this
    {
      AgentState(requestType, alerts, route, requirements, round, maxRounds, confidence, plan,
                 hitlRequired, hitlStatus, tokens, errors)
    }

    /** The exception handler of the base class. */
    method Finish(raised: bool)
      modifies this
      ensures View() == old(View()).(errors := old(errors) + if raised then 1 else 0)
      ensures View() == Swallow(if raised then Raised(old(View())) else Returned(old(View())))
    {
      if raised { errors := errors + 1; }
    }
  }

  ghost function Outcome(raised: bool, s: AgentState): NodeResult { if raised then Raised(s) else Returned(s) }

  method ProcessTriage(state: StateDict, i: TriageInput) returns (raised: bool)
    modifies state
    ensures Outcome(raised, state.View()) == Triage(old(state.View()), i)
  {
    if state.requestType == "user_query" {
      if i.rules == RuleRaised { return true; }
      if i.rules == Matched {
        state.route := Some("direct_tool");
        return false;
      }
    }
    state.route := Some(if i.llmRoute.Some? then i.llmRoute.value else "diagnosis");
    if state.alerts >= 3 && state.route != Some("alert_correlation") { state.route := Some("alert_correlation"); }
    if state.requestType == "alert" && state.route == Some("direct_tool") { state.route := Some("diagnosis"); }
    raised := false;
  }

  method ProcessPlanning(state: StateDict, i: PlanningInput) returns (raised: bool)
    modifies state
    ensures Outcome(raised, state.View()) == Planning(old(state.View()), i)
  {
    match i {
      case PlanAnswered(estimate, needed) =>
        state.requirements := needed;
        state.maxRounds := if estimate + 1 <= 5 then estimate + 1 else 5;
      case PlanFallback(wrote, needed) =>
        if wrote.Some? { state.maxRounds := if wrote.value + 1 <= 5 then wrote.value + 1 else 5; }
        state.requirements := needed;
      case PlanRaised => return true;
    }
    raised := false;
  }

  method ProcessDiagnostic(state: StateDict, i: DiagnosticInput) returns (raised: bool)
    modifies state
    ensures Outcome(raised, state.View()) == Diagnostic(old(state.View()), i)
  {
    state.round := state.round + 1;
    if i.progress == BeforeDiagnosis { return true; }
    state.confidence := i.confidence;
    if i.progress == AfterDiagnosis { return true; }
    state.plan := seq(|i.drafts|, k requires 0 <= k < |i.drafts| => FromDraft(i.drafts[k]));
    assert state.plan == FromDrafts(i.drafts);
    if i.progress == AfterPlan { return true; }
    if i.needed != [] && i.confidence < 0.6 { state.requirements := i.needed; } else { state.requirements := []; }
    raised := false;
  }

  class RemediationWorker {
    const settings: Settings

    constructor (settings: Settings)
      ensures this.settings == settings
    {
      this.settings := settings;
    }

    /** One step, edited in place. */
    method EditStep(state: StateDict, k: nat, succeeds: bool) returns (executed: bool)
      requires k < |state.plan|
      modifies state
      ensures var step := ProcessStep(old(state.plan)[k], settings, old(state.hitlStatus), succeeds);
              && state.View() == old(state.View()).(plan := old(state.plan)[k := step])
              && (executed <==> step.execution == Executed)
    {
      var step := state.plan[k];
      if step.risk in {"high", "critical"} { step := step.(requiresApproval := true); }
      if step.rollback == "" { step := step.(rollback := NO_ROLLBACK); }
      if CanExecute(step, settings, state.hitlStatus) {
        step := step.(execution := if succeeds then Executed else Failed);
      } else {
        step := step.(execution := Suggested);
      }
      state.plan := state.plan[k := step];
      executed := step.execution == Executed;
    }

    /** The loop over the plan; the counters cover the steps that were processed. */
    method Process(state: StateDict, i: RemediationInput) returns (raised: bool, executed: nat, suggestedOnly: nat)
      modifies state
      ensures Outcome(raised, state.View()) == Remediation(old(state.View()), settings, i)
      ensures !raised ==> executed + suggestedOnly == |state.plan|
      ensures executed == CountExecuted(state.plan, executed + suggestedOnly)
    {
      executed, suggestedOnly := 0, 0;
      if state.plan == [] { return false, 0, 0; }
      ghost var before := state.View();
      EditingStart(before, settings, i);
      for k := 0 to |state.plan|
        invariant Editing(before, settings, i, k, state.View(), executed, suggestedOnly)
      {
        if i.crashAfter == Some(k) { return true, executed, suggestedOnly; }
        ghost var s := state.View();
        var ok := EditStep(state, k, k < |i.succeeds| && i.succeeds[k]);
        EditingStep(before, settings, i, k, s, executed, suggestedOnly);
        if ok { executed := executed + 1; } else { suggestedOnly := suggestedOnly + 1; }
      }
      EditingDone(before, settings, i, state.View(), executed, suggestedOnly);
      raised := i.crashAfter.Some?;
    }
  }

  /** The remediation loop after k steps, over values. */
  ghost predicate Editing(before: AgentState, settings: Settings, i: RemediationInput, k: nat, s: AgentState,
                          executed: nat, suggestedOnly: nat)
  {
    && s == before.(plan := ProcessPlan(before.plan, settings, before.hitlStatus, i.succeeds, k))
    && executed + suggestedOnly == k <= |before.plan| && executed == CountExecuted(s.plan, k)
    && (i.crashAfter.Some? ==> i.crashAfter.value >= k)
  }

  lemma EditingStart(before: AgentState, settings: Settings, i: RemediationInput)
    ensures Editing(before, settings, i, 0, before, 0, 0)
  {
    assert ProcessPlan(before.plan, settings, before.hitlStatus, i.succeeds, 0) == before.plan;
  }

  lemma EditingStep(before: AgentState, settings: Settings, i: RemediationInput, k: nat, s: AgentState,
                    executed: nat, suggestedOnly: nat)
    requires Editing(before, settings, i, k, s, executed, suggestedOnly) && k < |before.plan| && i.crashAfter != Some(k)
    ensures s.plan[k] == before.plan[k] && s.hitlStatus == before.hitlStatus
    ensures var step := ProcessStep(before.plan[k], settings, before.hitlStatus, k < |i.succeeds| && i.succeeds[k]);
            var ok := if step.execution == Executed then 1 else 0;
            Editing(before, settings, i, k + 1, s.(plan := s.plan[k := step]), executed + ok, suggestedOnly + 1 - ok)
  {
    var step := ProcessStep(before.plan[k], settings, before.hitlStatus, k < |i.succeeds| && i.succeeds[k]);
    assert s.plan[k := step] == ProcessPlan(before.plan, settings, before.hitlStatus, i.succeeds, k + 1);
    CountKept(s.plan, s.plan[k := step], k);
  }

  lemma EditingDone(before: AgentState, settings: Settings, i: RemediationInput, s: AgentState,
                    executed: nat, suggestedOnly: nat)
    requires before.plan != [] && Editing(before, settings, i, |before.plan|, s, executed, suggestedOnly)
    ensures Outcome(i.crashAfter.Some?, s) == Remediation(before, settings, i)
  {
    assert i.crashAfter.Some? ==>
      ProcessPlan(before.plan, settings, before.hitlStatus, i.succeeds, i.crashAfter.value) == s.plan;
  }

  ghost function CountExecuted(plan: seq<PlanStep>, n: nat): nat {
    if n == 0 || n > |plan| then 0 else CountExecuted(plan, n - 1) + if plan[n - 1].execution == Executed then 1 else 0
  }

  lemma {:induction false} CountKept(a: seq<PlanStep>, b: seq<PlanStep>, n: nat)
    requires n <= |a| == |b| && forall j :: 0 <= j < n ==> a[j] == b[j]
    ensures CountExecuted(a, n) == CountExecuted(b, n)
  {
    if n > 0 { CountKept(a, b, n - 1); }
  }

  // ---------------------------------------------------------------- the approval node

  lemma {:induction false} HighStepsConcat(a: seq<PlanStep>, b: seq<PlanStep>)
    ensures HighSteps(a + b) == HighSteps(a) + HighSteps(b)
  {
    if a == [] {
      assert a + b == b;
    } else {
      var head := if HighRisk(a[0].risk) then [a[0]] else [];
      HighStepsConcat(a[1..], b);
      assert (a + b)[1..] == a[1..] + b && (a + b)[0] == a[0];
      assert HighSteps(a + b) == head + HighSteps(a[1..] + b) && HighSteps(a) == head + HighSteps(a[1..]);
      ConcatAssociates(head, HighSteps(a[1..]), HighSteps(b));
    }
  }

  lemma {:induction false} TagSnoc(a: seq<PlanStep>, step: PlanStep, ids: seq<string>, id: string)
    requires |ids| == |HighSteps(a)|
    ensures HighRisk(step.risk) ==> Tag(a + [step], ids + [id]) == Tag(a, ids) + [step.(approvalId := Some(id))]
    ensures !HighRisk(step.risk) ==> Tag(a + [step], ids) == Tag(a, ids) + [step]
  {
    if a != [] {
      assert (a + [step])[1..] == a[1..] + [step];
      if HighRisk(a[0].risk) {
        TagSnoc(a[1..], step, ids[1..], id);
        assert (ids + [id])[1..] == ids[1..] + [id];
      } else {
        TagSnoc(a[1..], step, ids, id);
      }
    }
  }

  lemma {:induction false} TagRest(a: seq<PlanStep>, b: seq<PlanStep>, ids: seq<string>)
    requires |ids| == |HighSteps(a)|
    ensures Tag(a + b, ids) == Tag(a, ids) + b
  {
    if a == [] {
      assert a + b == b;
    } else {
      assert (a + b)[1..] == a[1..] + b;
      TagRest(a[1..], b, if HighRisk(a[0].risk) then ids[1..] else ids);
    }
  }

  /** The request loop after k plan steps, j of them high-risk, over values. */
  ghost predicate Requesting(plan0: seq<PlanStep>, g0: Gate, i: HitlInput, k: nat, j: nat, plan: seq<PlanStep>, g: Gate)
    requires |i.ids| == |HighSteps(plan0)|
  {
    && k <= |plan0| && j == |HighSteps(plan0[..k])| <= |i.ids|
    && plan == Tag(plan0[..k], i.ids[..j]) + plan0[k..] && |plan| == |plan0|
    && g == After(g0, RequestOps(HighSteps(plan0), i.ids, i.timeout, i.now), j)
    && (forall a :: 0 <= a < |i.ids| ==> (i.ids[a] in g.requests <==> a < j))
    && (i.crash.WhileCreating? ==> i.crash.done >= j)
  }

  lemma RequestingHigh(plan0: seq<PlanStep>, g0: Gate, i: HitlInput, k: nat, j: nat, plan: seq<PlanStep>, g: Gate)
    requires |i.ids| == |HighSteps(plan0)| && Requesting(plan0, g0, i, k, j, plan, g)
    requires k < |plan0| && HighRisk(plan0[k].risk) && i.crash != WhileCreating(j)
    requires NoDuplicates(i.ids)
    ensures plan[k] == plan0[k] && j < |i.ids|
    ensures Requesting(plan0, g0, i, k + 1, j + 1, plan[k := plan0[k].(approvalId := Some(i.ids[j]))],
                       Apply(g, RequestOp(plan0[k], i.ids[j], i.timeout, i.now)).0)
  {
    PlanSplit(plan0, k);
    var head := Tag(plan0[..k], i.ids[..j]);
    TagSnoc(plan0[..k], plan0[k], i.ids[..j], i.ids[j]);
    assert i.ids[..j] + [i.ids[j]] == i.ids[..j + 1];
    assert |head| == k;
    var tagged := plan0[k].(approvalId := Some(i.ids[j]));
    assert plan[k := tagged] == head + [tagged] + plan0[k + 1..];
  }

  lemma RequestingLow(plan0: seq<PlanStep>, g0: Gate, i: HitlInput, k: nat, j: nat, plan: seq<PlanStep>, g: Gate)
    requires |i.ids| == |HighSteps(plan0)| && Requesting(plan0, g0, i, k, j, plan, g)
    requires k < |plan0| && !HighRisk(plan0[k].risk)
    ensures plan[k] == plan0[k] && Requesting(plan0, g0, i, k + 1, j, plan, g)
  {
    PlanSplit(plan0, k);
    TagSnoc(plan0[..k], plan0[k], i.ids[..j], "");
    var head := Tag(plan0[..k], i.ids[..j]);
    assert plan == head + [plan0[k]] + plan0[k + 1..];
  }

  /** The step at k is the next high-risk one, if it is high-risk. */
  lemma PlanSplit(plan0: seq<PlanStep>, k: nat)
    requires k < |plan0|
    ensures plan0[..k + 1] == plan0[..k] + [plan0[k]] && plan0[k..] == [plan0[k]] + plan0[k + 1..]
    ensures HighSteps(plan0[..k + 1]) == HighSteps(plan0[..k]) + if HighRisk(plan0[k].risk) then [plan0[k]] else []
    ensures |HighSteps(plan0[..k + 1])| <= |HighSteps(plan0)|
    ensures HighRisk(plan0[k].risk) ==> HighSteps(plan0)[|HighSteps(plan0[..k])|] == plan0[k]
  {
    assert plan0[..k + 1] == plan0[..k] + [plan0[k]];
    assert plan0 == plan0[..k + 1] + plan0[k + 1..];
    HighStepsConcat(plan0[..k], [plan0[k]]);
    HighStepsConcat(plan0[..k + 1], plan0[k + 1..]);
    assert HighSteps([plan0[k]]) == (if HighRisk(plan0[k].risk) then [plan0[k]] else []) + HighSteps([]);
  }

  lemma RequestingStart(plan0: seq<PlanStep>, g0: Gate, i: HitlInput)
    requires |i.ids| == |HighSteps(plan0)| && forall a :: 0 <= a < |i.ids| ==> i.ids[a] !in g0.requests
    ensures Requesting(plan0, g0, i, 0, 0, plan0, g0)
  {
    assert plan0[..0] == [] && i.ids[..0] == [] && [] + plan0[0..] == plan0;
  }

  /** The loop stopped by an exception, or finished. */
  lemma RequestingStop(plan0: seq<PlanStep>, g0: Gate, i: HitlInput, k: nat, j: nat, plan: seq<PlanStep>, g: Gate)
    requires |i.ids| == |HighSteps(plan0)| && Requesting(plan0, g0, i, k, j, plan, g)
    requires k == |plan0| || i.crash == WhileCreating(j)
    ensures var ids := if i.crash.WhileCreating? then Prefix(i.ids, i.crash.done) else i.ids;
            && plan == Tag(plan0, ids)
            && g == AfterAll(g0, RequestOps(HighSteps(plan0), ids, i.timeout, i.now))
    ensures !i.crash.WhileCreating? ==> forall a :: 0 <= a < |i.ids| ==> i.ids[a] in g.requests
  {
    assert plan0 == plan0[..k] + plan0[k..];
    TagRest(plan0[..k], plan0[k..], i.ids[..j]);
    AfterSome(HighSteps(plan0), g0, i, j);
    assert k == |plan0| ==> plan0[..k] == plan0;
    assert i.ids[..j] == if i.crash.WhileCreating? then Prefix(i.ids, i.crash.done) else i.ids;
  }

  lemma AfterSome(steps: seq<PlanStep>, g0: Gate, i: HitlInput, j: nat)
    requires j <= |i.ids| == |steps|
    ensures After(g0, RequestOps(steps, i.ids, i.timeout, i.now), j)
         == AfterAll(g0, RequestOps(steps, i.ids[..j], i.timeout, i.now))
  {
    var all, some := RequestOps(steps, i.ids, i.timeout, i.now), RequestOps(steps, i.ids[..j], i.timeout, i.now);
    assert some == all[..j];
    AfterPrefix(g0, all, some, j);
  }

  lemma {:induction false} AfterPrefix(g: Gate, a: seq<GateOp>, b: seq<GateOp>, n: nat)
    requires n <= |a| && n <= |b| && a[..n] == b[..n]
    ensures After(g, a, n) == After(g, b, n)
  {
    if n > 0 {
      assert a[..n][n - 1] == b[..n][n - 1];
      assert a[..n - 1] == a[..n][..n - 1] == b[..n - 1];
      AfterPrefix(g, a, b, n - 1);
    }
  }

  /** Each id's own outcome after n of the checks at the time `later`. */
  ghost predicate ChecksDone(g2: Gate, ids: seq<string>, later: real, n: nat, g: Gate) {
    && g.requests.Keys == g2.requests.Keys
    && (forall a :: 0 <= a < |ids| ==> ids[a] in g2.requests)
    && (forall a :: 0 <= a < |ids| ==>
          g.requests[ids[a]] == if a < n then CheckRequest(g2.requests[ids[a]], later) else g2.requests[ids[a]])
  }

  /** The loop's two flags after n of the ids. */
  ghost predicate Flagged(g: Gate, ids: seq<string>, n: nat, allApproved: bool, anyRejected: bool)
    requires n <= |ids|
  {
    && (anyRejected <==> exists a :: 0 <= a < n && IsRefused(g, ids[a]))
    && (!anyRejected ==> (allApproved <==> forall a :: 0 <= a < n ==> IsCleared(g, ids[a])))
  }

  /** What the status loop has seen after n checks. */
  ghost predicate Checking(g2: Gate, ids: seq<string>, later: real, n: nat, g: Gate, allApproved: bool, anyRejected: bool)
    requires n <= |ids|
  {
    && g == After(g2, CheckOps(ids, later), n) && ChecksDone(g2, ids, later, n, g)
    && Flagged(g, ids, n, allApproved, anyRejected)
  }

  lemma CheckingStep(g2: Gate, ids: seq<string>, later: real, n: nat, g: Gate, allApproved: bool, anyRejected: bool)
    requires n < |ids| && Checking(g2, ids, later, n, g, allApproved, anyRejected)
    requires NoDuplicates(ids)
    ensures ids[n] in g.requests
    ensures var g' := Apply(g, Check(ids[n], later)).0;
            Checking(g2, ids, later, n + 1, g', allApproved && (IsCleared(g', ids[n]) || IsRefused(g', ids[n])),
                     anyRejected || IsRefused(g', ids[n]))
  {
    var g' := Apply(g, Check(ids[n], later)).0;
    assert forall a :: 0 <= a < |ids| && a != n ==> g'.requests[ids[a]] == g.requests[ids[a]];
    assert forall a :: 0 <= a < n ==> (IsRefused(g', ids[a]) <==> IsRefused(g, ids[a]));
    assert forall a :: 0 <= a < n ==> (IsCleared(g', ids[a]) <==> IsCleared(g, ids[a]));
    if anyRejected {
      var a :| 0 <= a < n && IsRefused(g, ids[a]);
      assert IsRefused(g', ids[a]);
    }
  }

  class HitlWorker {
    const gate: HITLGate

    constructor (gate: HITLGate)
      ensures this.gate == gate
    {
      this.gate := gate;
    }

    method RequestOne(state: StateDict, k: nat, id: string, timeout: real, now: real)
      requires k < |state.plan| && gate.Valid() && id !in gate.requests
      modifies state, gate
      ensures gate.Valid() && fresh(gate.requests.Values - old(gate.requests.Values))
      ensures gate.View() == Apply(old(gate.View()), RequestOp(old(state.plan)[k], id, timeout, now)).0
      ensures state.View() == old(state.View()).(plan := old(state.plan)[k := old(state.plan)[k].(approvalId := Some(id))])
    {
      var step := state.plan[k];
      var _ := gate.CreateRequest(id, "unknown", step.action, step.risk, timeout, now);
      state.plan := state.plan[k := step.(approvalId := Some(id))];
    }

    /** The loop that creates and tags, up to plan step k; j counts the requests created. */
    method RequestAll(state: StateDict, i: HitlInput, ghost plan0: seq<PlanStep>, ghost g0: Gate) returns (k: nat, j: nat)
      requires gate.Valid() && |i.ids| == |HighSteps(plan0)| && |state.plan| == |plan0|
      requires NoDuplicates(i.ids)
      requires Requesting(plan0, g0, i, 0, 0, state.plan, gate.View())
      modifies state, gate
      ensures gate.Valid() && fresh(gate.requests.Values - old(gate.requests.Values))
      ensures state.View() == old(state.View()).(plan := state.plan)
      ensures Requesting(plan0, g0, i, k, j, state.plan, gate.View())
      ensures k == |plan0| || i.crash == WhileCreating(j)
    {
      k, j := 0, 0;
      while k < |state.plan|
        invariant k <= |state.plan| == |plan0|
        invariant gate.Valid() && fresh(gate.requests.Values - old(gate.requests.Values))
        invariant state.View() == old(state.View()).(plan := state.plan)
        invariant Requesting(plan0, g0, i, k, j, state.plan, gate.View())
        modifies state, gate
      {
        var crashed;
        crashed, j := RequestTurn(state, i, k, j, plan0, g0);
        if crashed { return; }
        k := k + 1;
      }
    }

    /** One turn: a high-risk step gets its request, unless the exception comes first. */
    method RequestTurn(state: StateDict, i: HitlInput, k: nat, j: nat, ghost plan0: seq<PlanStep>, ghost g0: Gate)
      returns (crashed: bool, j': nat)
      requires gate.Valid() && |i.ids| == |HighSteps(plan0)| && k < |state.plan| == |plan0|
      requires NoDuplicates(i.ids)
      requires Requesting(plan0, g0, i, k, j, state.plan, gate.View())
      modifies state, gate
      ensures gate.Valid() && fresh(gate.requests.Values - old(gate.requests.Values))
      ensures state.View() == old(state.View()).(plan := state.plan) && |state.plan| == |plan0|
      ensures crashed ==> i.crash == WhileCreating(j')
      ensures Requesting(plan0, g0, i, if crashed then k else k + 1, j', state.plan, gate.View())
    {
      crashed, j' := false, j;
      NextHigh(plan0, g0, i, k, j, state.plan, gate.View());
      if state.plan[k].risk in {"high", "critical"} {
        if i.crash == WhileCreating(j) { return true, j; }
        RequestingHigh(plan0, g0, i, k, j, state.plan, gate.View());
        assert i.ids[j] !in gate.View().requests;
        RequestOne(state, k, i.ids[j], i.timeout, i.now);
        j' := j + 1;
      } else {
        RequestingLow(plan0, g0, i, k, j, state.plan, gate.View());
      }
    }

    /** The whole node. */
    method Process(state: StateDict, i: HitlInput) returns (raised: bool)
      requires gate.Valid() && |i.ids| == |HighSteps(state.plan)|
      requires NoDuplicates(i.ids)
      requires forall a :: 0 <= a < |i.ids| ==> i.ids[a] !in gate.requests
      requires FreshIds(AfterAll(gate.View(), RequestOps(HighSteps(state.plan), i.ids, i.timeout, i.now)), i.between)
      modifies state, gate, gate.requests.Values
      ensures gate.Valid()
      ensures var (r, g) := Hitl(old(state.View()), old(gate.View()), i);
              Outcome(raised, state.View()) == r && gate.View() == g
    {
      if |HighSteps(state.plan)| == 0 {
        state.hitlRequired, state.hitlStatus := Some(false), Some("approved");
        return false;
      }
      state.hitlRequired := Some(true);
      if state.hitlStatus in {Some("approved"), Some("rejected")} { return false; }
      raised := Decide(state, i);
    }

    method Decide(state: StateDict, i: HitlInput) returns (raised: bool)
      requires gate.Valid() && |i.ids| == |HighSteps(state.plan)|
      requires NoDuplicates(i.ids)
      requires forall a :: 0 <= a < |i.ids| ==> i.ids[a] !in gate.requests
      requires FreshIds(AfterAll(gate.View(), RequestOps(HighSteps(state.plan), i.ids, i.timeout, i.now)), i.between)
      modifies state, gate, gate.requests.Values
      ensures gate.Valid()
      ensures var (r, g) := HitlDecide(old(state.View()), old(gate.View()), i);
              Outcome(raised, state.View()) == r && gate.View() == g
    {
      raised := RequestPhase(state, i);
      if !raised { raised := CheckPhase(state, i); }
    }

    method RequestPhase(state: StateDict, i: HitlInput) returns (raised: bool)
      requires gate.Valid() && |i.ids| == |HighSteps(state.plan)|
      requires NoDuplicates(i.ids)
      requires forall a :: 0 <= a < |i.ids| ==> i.ids[a] !in gate.requests
      modifies state, gate
      ensures gate.Valid() && fresh(gate.requests.Values - old(gate.requests.Values))
      ensures raised <==> i.crash.WhileCreating?
      ensures !raised ==> forall a :: 0 <= a < |i.ids| ==> i.ids[a] in gate.requests
      ensures var ids := if raised then Prefix(i.ids, i.crash.done) else i.ids;
              && state.View() == old(state.View()).(plan := Tag(old(state.plan), ids))
              && gate.View() == AfterAll(old(gate.View()), RequestOps(HighSteps(old(state.plan)), ids, i.timeout, i.now))
    {
      ghost var plan0, g0 := state.plan, gate.View();
      RequestingStart(plan0, g0, i);
      var k, j := RequestAll(state, i, plan0, g0);
      RequestingStop(plan0, g0, i, k, j, state.plan, gate.View());
      raised := i.crash.WhileCreating?;
      assert gate.View().requests.Keys == gate.requests.Keys;
    }

    method CheckPhase(state: StateDict, i: HitlInput) returns (raised: bool)
      requires gate.Valid() && FreshIds(gate.View(), i.between)
      requires NoDuplicates(i.ids)
      requires forall a :: 0 <= a < |i.ids| ==> i.ids[a] in gate.requests
      modifies state, gate, gate.requests.Values
      ensures gate.Valid()
      ensures raised <==> i.crash.WhileChecking?
      ensures var ids := if raised then Prefix(i.ids, i.crash.done) else i.ids;
              var g3 := AfterAll(AfterAll(old(gate.View()), i.between), CheckOps(ids, i.later));
              && gate.View() == g3
              && state.View() == if raised then old(state.View()) else old(state.View()).(hitlStatus := Some(Verdict(g3, ids)))
    {
      raised := i.crash.WhileChecking?;
      var ids := if raised then Prefix(i.ids, i.crash.done) else i.ids;
      var verdict := CheckLater(i, ids);
      if !raised { state.hitlStatus := Some(verdict); }
    }

    /** Time passes, others act, then the requests are checked. */
    method CheckLater(i: HitlInput, ids: seq<string>) returns (verdict: string)
      requires gate.Valid() && FreshIds(gate.View(), i.between)
      requires NoDuplicates(ids)
      requires forall a :: 0 <= a < |ids| ==> ids[a] in gate.requests
      modifies gate, gate.requests.Values
      ensures gate.Valid()
      ensures gate.View() == AfterAll(AfterAll(old(gate.View()), i.between), CheckOps(ids, i.later))
      ensures verdict == Verdict(gate.View(), ids)
    {
      KeptRequests(gate.View(), i.between, ids);
      gate.PerformAll(i.between);
      ghost var g2 := gate.View();
      CheckingStart(g2, ids, i.later);
      var allApproved, anyRejected := CheckAll(ids, i.later, g2);
      CheckingVerdict(g2, ids, i.later, gate.View(), allApproved, anyRejected);
      verdict := if anyRejected then "rejected" else if allApproved then "approved" else "pending";
    }

    /** The status loop. */
    method CheckAll(ids: seq<string>, later: real, ghost g2: Gate) returns (allApproved: bool, anyRejected: bool)
      requires gate.Valid() && NoDuplicates(ids)
      requires Checking(g2, ids, later, 0, gate.View(), true, false)
      modifies gate.requests.Values
      ensures gate.Valid() && Checking(g2, ids, later, |ids|, gate.View(), allApproved, anyRejected)
    {
      allApproved, anyRejected := true, false;
      ghost var g := gate.View();
      for k := 0 to |ids|
        invariant gate.Valid() && gate.View() == g && Checking(g2, ids, later, k, g, allApproved, anyRejected)
        modifies gate.requests.Values
      {
        CheckingStep(g2, ids, later, k, g, allApproved, anyRejected);
        var cleared, refused := CheckOne(ids[k], later);
        g := gate.View();
        allApproved, anyRejected := allApproved && (cleared || refused), anyRejected || refused;
      }
    }

    method CheckOne(id: string, later: real) returns (cleared: bool, refused: bool)
      requires gate.Valid() && id in gate.requests
      modifies gate.requests.Values
      ensures gate.Valid() && gate.requests == old(gate.requests)
      ensures gate.View() == Apply(old(gate.View()), Check(id, later)).0
      ensures cleared == IsCleared(gate.View(), id) && refused == IsRefused(gate.View(), id)
    {
      var answer := gate.CheckStatus(id, later);
      var status := answer.value.status;
      assert gate.View().requests[id].status == status;
      cleared := status == Approved || status == AutoApproved;
      refused := status == Rejected || status == TimedOut;
    }
  }

  /** Untouched steps are still the plan's own. */
  lemma NextHigh(plan0: seq<PlanStep>, g0: Gate, i: HitlInput, k: nat, j: nat, plan: seq<PlanStep>, g: Gate)
    requires |i.ids| == |HighSteps(plan0)| && Requesting(plan0, g0, i, k, j, plan, g) && k < |plan0|
    ensures plan[k] == plan0[k]
    ensures HighRisk(plan0[k].risk) ==> j < |i.ids|
  {
    PlanSplit(plan0, k);
    TagLength(plan0[..k], i.ids[..j]);
  }

  lemma {:induction false} TagLength(plan: seq<PlanStep>, ids: seq<string>)
    ensures |Tag(plan, ids)| == |plan|
  {
    if plan != [] && ids != [] { TagLength(plan[1..], if HighRisk(plan[0].risk) then ids[1..] else ids); }
  }

  lemma KeptRequests(g: Gate, ops: seq<GateOp>, ids: seq<string>)
    requires FreshIds(g, ops) && forall a :: 0 <= a < |ids| ==> ids[a] in g.requests
    ensures forall a :: 0 <= a < |ids| ==> ids[a] in AfterAll(g, ops).requests
  {
    forall a | 0 <= a < |ids| ensures ids[a] in AfterAll(g, ops).requests {
      TermsForever(g, ops, |ops|, ids[a]);
    }
  }

  lemma CheckingStart(g2: Gate, ids: seq<string>, later: real)
    requires forall a :: 0 <= a < |ids| ==> ids[a] in g2.requests
    ensures Checking(g2, ids, later, 0, g2, true, false)
  {}

  lemma CheckingVerdict(g2: Gate, ids: seq<string>, later: real, g: Gate, allApproved: bool, anyRejected: bool)
    requires Checking(g2, ids, later, |ids|, g, allApproved, anyRejected)
    ensures g == AfterAll(g2, CheckOps(ids, later))
    ensures Verdict(g, ids) == if anyRejected then "rejected" else if allApproved then "approved" else "pending"
  {}
}
