/**
 The approval workflow: several remediation steps submitted to one gate, a status check that
 folds the gate's answers into step and workflow states, and the polling wait.
 */
module HitlWorkflow {
  import opened Basics
  import opened Wrappers
  import opened HitlGate

  datatype Level = Safe | Low | Medium | High | Critical

  function Label(level: Level): string {
    match level
    case Safe => "safe"
    case Low => "low"
    case Medium => "medium"
    case High => "high"
    case Critical => "critical"
  }

  predicate NeedsApproval(level: Level) { level.Medium? || level.High? || level.Critical? }

  function SuggestedTimeout(level: Level): real {
    match level
    case Safe => 0.0
    case Low => 60.0
    case Medium => 300.0
    case High => 600.0
    case Critical => 1800.0
  }

  /** APPROVED and REJECTED of the source are Granted and Denied here. */
  datatype FlowState = RiskAssessed | AwaitingApproval | Granted | Denied

  datatype Step = Step(operation: string, level: Level, request: Option<string>, state: FlowState)

  // ---------------------------------------------------------------- submission on values

  function SubmittedStep(step: Step, id: string): Step {
    if NeedsApproval(step.level) then step.(request := Some(id), state := AwaitingApproval)
    else step.(state := Granted)
  }

  function SubmitOp(step: Step, sessionId: string, id: string, now: real): GateOp {
    Create(id, sessionId, step.operation, Label(step.level), SuggestedTimeout(step.level), now)
  }

  ghost function SubmitStepGate(step: Step, sessionId: string, id: string, g: Gate, now: real): Gate {
    if NeedsApproval(step.level) then Apply(g, SubmitOp(step, sessionId, id, now)).0 else g
  }

  /** The first n steps after submission; step i gets the request id ids[i] if it needs one. */
  ghost function Submitted(steps: seq<Step>, ids: seq<string>, n: nat): (r: seq<Step>)
    requires n <= |steps| == |ids|
    ensures |r| == n
  {
    if n == 0 then [] else Submitted(steps, ids, n - 1) + [SubmittedStep(steps[n - 1], ids[n - 1])]
  }

  /** The gate at that point. */
  ghost function SubmittedGate(steps: seq<Step>, sessionId: string, ids: seq<string>, g: Gate, now: real, n: nat): Gate
    requires n <= |steps| == |ids|
  {
    if n == 0 then g
    else SubmitStepGate(steps[n - 1], sessionId, ids[n - 1], SubmittedGate(steps, sessionId, ids, g, now, n - 1), now)
  }

  /** A step's state agrees with the gate about its request. */
  ghost predicate StepLinked(step: Step, g: Gate) {
    if !NeedsApproval(step.level) then step.request.None? && step.state.Granted?
    else
      && step.request.Some? && step.request.value in g.requests
      && var r := g.requests[step.request.value];
      && r.riskLevel == Label(step.level) && r.operation == step.operation
      && (step.state.AwaitingApproval?
          || (step.state.Granted? && Cleared(r))
          || (step.state.Denied? && Refused(r)))
  }

  predicate Cleared(r: Request) { r.status.Approved? || r.status.AutoApproved? }

  predicate Refused(r: Request) { r.status.Rejected? || r.status.TimedOut? }

  ghost predicate Linked(steps: seq<Step>, g: Gate) {
    forall i :: 0 <= i < |steps| ==> StepLinked(steps[i], g)
  }

  /** No two steps share a request. */
  ghost predicate DistinctRequests(steps: seq<Step>) {
    forall i, j :: 0 <= i < j < |steps| && steps[i].request.Some? ==> steps[i].request != steps[j].request
  }

  ghost predicate DistinctIds(ids: seq<string>, g: Gate) {
    NoDuplicates(ids) && forall i :: 0 <= i < |ids| ==> ids[i] !in g.requests
  }

  // ---------------------------------------------------------------- the status check on values

  ghost function CheckStep(step: Step, g: Gate, now: real): Step {
    if step.request.Some? && step.state.AwaitingApproval? && step.request.value in g.requests then
      var r := CheckRequest(g.requests[step.request.value], now);
      if Cleared(r) then step.(state := Granted) else if Refused(r) then step.(state := Denied) else step
    else step
  }

  ghost function CheckStepGate(step: Step, g: Gate, now: real): Gate {
    if step.request.Some? && step.state.AwaitingApproval? then Apply(g, Check(step.request.value, now)).0 else g
  }

  /** The gate after the first n steps were checked. */
  ghost function CheckedGate(steps: seq<Step>, g: Gate, now: real, n: nat): Gate
    requires n <= |steps|
  {
    if n == 0 then g else CheckStepGate(steps[n - 1], CheckedGate(steps, g, now, n - 1), now)
  }

  /** Step n, checked when its turn comes. */
  ghost function CheckedStep(steps: seq<Step>, g: Gate, now: real, n: nat): Step
    requires n < |steps|
  {
    CheckStep(steps[n], CheckedGate(steps, g, now, n), now)
  }

  /** The first n steps at that point. */
  ghost function Checked(steps: seq<Step>, g: Gate, now: real, n: nat): (r: seq<Step>)
    requires n <= |steps|
    ensures |r| == n
  {
    if n == 0 then [] else Checked(steps, g, now, n - 1) + [CheckedStep(steps, g, now, n - 1)]
  }

  ghost predicate StillPending(step: Step) { step.request.Some? && step.state.AwaitingApproval? }

  ghost predicate NewlyDenied(before: Step, after: Step) { before.state.AwaitingApproval? && after.state.Denied? }

  /** What one check makes of the workflow state. */
  ghost function Verdict(before: seq<Step>, after: seq<Step>, was: FlowState): FlowState
    requires |before| == |after|
  {
    if exists i :: 0 <= i < |before| && NewlyDenied(before[i], after[i]) then Denied
    else if forall i :: 0 <= i < |after| ==> !StillPending(after[i]) then Granted
    else was
  }

  // ---------------------------------------------------------------- links survive

  lemma StepLinkedKept(step: Step, g: Gate, op: GateOp)
    requires StepLinked(step, g) && (step.request.Some? ==> Touches(g, op, step.request.value))
    ensures StepLinked(step, Apply(g, op).0)
  {
    if NeedsApproval(step.level) { StepKeepsRequest(g, op, step.request.value); }
  }

  /** No call by anyone else unlinks a step, as long as nobody creates a request under its id. */
  lemma LinkedKept(steps: seq<Step>, g: Gate, op: GateOp)
    requires Linked(steps, g)
    requires op.Create? ==> forall i :: 0 <= i < |steps| ==> steps[i].request != Some(op.id)
    ensures Linked(steps, Apply(g, op).0)
  {
    forall i | 0 <= i < |steps| ensures StepLinked(steps[i], Apply(g, op).0) {
      StepLinkedKept(steps[i], g, op);
    }
  }

  /** Submitting one more step keeps the earlier ones linked and links the new one. */
  lemma SubmitKeepsLinked(done: seq<Step>, step: Step, sessionId: string, id: string, g: Gate, now: real)
    requires GateInv(g) && Linked(done, g) && id !in g.requests && step.request.None?
    ensures var g' := SubmitStepGate(step, sessionId, id, g, now);
            GateInv(g') && Linked(done + [SubmittedStep(step, id)], g')
  {
    if NeedsApproval(step.level) {
      var op := SubmitOp(step, sessionId, id, now);
      StepKeepsInv(g, op);
      LinkedKept(done, g, op);
    }
  }

  /** The submission loop after n steps, over values. */
  ghost predicate Submitting(before: seq<Step>, sessionId: string, ids: seq<string>, g0: Gate, now: real, n: nat,
                             done: seq<Step>, g: Gate)
    requires n <= |before| == |ids|
  {
    && done == Submitted(before, ids, n) && g == SubmittedGate(before, sessionId, ids, g0, now, n)
    && |done| == n && GateInv(g) && Linked(done, g) && NoneDenied(done)
    && (forall j :: n <= j < |ids| ==> ids[j] !in g.requests)
  }

  lemma SubmittingStep(before: seq<Step>, sessionId: string, ids: seq<string>, g0: Gate, now: real, n: nat,
                       done: seq<Step>, g: Gate)
    requires n < |before| == |ids| && Submitting(before, sessionId, ids, g0, now, n, done, g)
    requires before[n].request.None? && NoDuplicates(ids)
    ensures Submitting(before, sessionId, ids, g0, now, n + 1, done + [SubmittedStep(before[n], ids[n])],
                       SubmitStepGate(before[n], sessionId, ids[n], g, now))
  {
    SubmitKeepsLinked(done, before[n], sessionId, ids[n], g, now);
  }

  /** The list of steps with the first n done: the next one is replaced in its place. */
  lemma Splice(done: seq<Step>, before: seq<Step>, n: nat, step: Step)
    requires |done| == n < |before|
    ensures (done + before[n..])[n] == before[n]
    ensures (done + before[n..])[n := step] == (done + [step]) + before[n + 1..]
  {}

  lemma CheckStepLinks(step: Step, g: Gate, now: real)
    requires StepLinked(step, g)
    ensures StepLinked(CheckStep(step, g, now), CheckStepGate(step, g, now))
    ensures CheckStep(step, g, now).(state := step.state) == step
  {}

  lemma CheckKeepsLinked(done: seq<Step>, step: Step, rest: seq<Step>, g: Gate, now: real)
    requires GateInv(g) && Linked(done + [step] + rest, g)
    ensures var g' := CheckStepGate(step, g, now);
            GateInv(g') && Linked(done + [CheckStep(step, g, now)] + rest, g')
  {
    var all, step', g' := done + [step] + rest, CheckStep(step, g, now), CheckStepGate(step, g, now);
    assert all[|done|] == step;
    CheckStepLinks(step, g, now);
    if StillPending(step) {
      StepKeepsInv(g, Check(step.request.value, now));
      LinkedKept(all, g, Check(step.request.value, now));
    }
    var all' := done + [step'] + rest;
    assert forall i :: 0 <= i < |all'| && i != |done| ==> all'[i] == all[i];
  }

  /** At every turn of the check loop all steps, checked or not, are linked to the gate as it is then. */
  lemma {:induction false} CheckedLinked(steps: seq<Step>, g: Gate, now: real, n: nat)
    requires n <= |steps| && GateInv(g) && Linked(steps, g)
    ensures GateInv(CheckedGate(steps, g, now, n))
    ensures Linked(Checked(steps, g, now, n) + steps[n..], CheckedGate(steps, g, now, n))
  {
    if n == 0 {
      assert [] + steps[0..] == steps;
    } else {
      var done, step, rest := Checked(steps, g, now, n - 1), steps[n - 1], steps[n..];
      CheckedLinked(steps, g, now, n - 1);
      assert done + steps[n - 1..] == done + [step] + rest;
      CheckKeepsLinked(done, step, rest, CheckedGate(steps, g, now, n - 1), now);
    }
  }

  lemma CheckedStepLinked(steps: seq<Step>, g: Gate, now: real, n: nat)
    requires n < |steps| && GateInv(g) && Linked(steps, g)
    ensures StepLinked(steps[n], CheckedGate(steps, g, now, n))
  {
    CheckedLinked(steps, g, now, n);
    assert (Checked(steps, g, now, n) + steps[n..])[n] == steps[n];
  }

  lemma TurnList(done: seq<Step>, before: seq<Step>, i: nat, step: Step)
    requires |done| == i < |before|
    ensures (done + before[i..])[i] == before[i]
    ensures (done + before[i..])[i := step] == done + [step] + before[i + 1..]
  {}

  /** The two flags of the loop after n turns. */
  ghost predicate AllSettled(steps: seq<Step>, g: Gate, now: real, n: nat)
    requires n <= |steps|
  {
    n == 0 || (AllSettled(steps, g, now, n - 1) && !StillPending(CheckedStep(steps, g, now, n - 1)))
  }

  ghost predicate AnyRefused(steps: seq<Step>, g: Gate, now: real, n: nat)
    requires n <= |steps|
  {
    n > 0 && (AnyRefused(steps, g, now, n - 1) || NewlyDenied(steps[n - 1], CheckedStep(steps, g, now, n - 1)))
  }

  lemma {:induction false} CheckedAt(steps: seq<Step>, g: Gate, now: real, n: nat, i: nat)
    requires i < n <= |steps|
    ensures Checked(steps, g, now, n)[i] == CheckedStep(steps, g, now, i)
  {
    if i < n - 1 { CheckedAt(steps, g, now, n - 1, i); }
  }

  lemma {:induction false} SettledMeans(steps: seq<Step>, g: Gate, now: real, n: nat)
    requires n <= |steps|
    ensures AllSettled(steps, g, now, n) <==> forall i :: 0 <= i < n ==> !StillPending(CheckedStep(steps, g, now, i))
  {
    if n > 0 { SettledMeans(steps, g, now, n - 1); }
  }

  lemma {:induction false} RefusedMeans(steps: seq<Step>, g: Gate, now: real, n: nat)
    requires n <= |steps|
    ensures AnyRefused(steps, g, now, n) <==> exists i :: 0 <= i < n && NewlyDenied(steps[i], CheckedStep(steps, g, now, i))
  {
    if n > 0 { RefusedMeans(steps, g, now, n - 1); }
  }

  /** The flags at the end give the verdict. */
  lemma FlagsMean(steps: seq<Step>, g: Gate, now: real, was: FlowState)
    ensures var n := |steps|;
            Verdict(steps, Checked(steps, g, now, n), was)
            == if AnyRefused(steps, g, now, n) then Denied else if AllSettled(steps, g, now, n) then Granted else was
  {
    var n := |steps|;
    SettledMeans(steps, g, now, n);
    RefusedMeans(steps, g, now, n);
    var after := Checked(steps, g, now, n);
    forall i | 0 <= i < n ensures after[i] == CheckedStep(steps, g, now, i) { CheckedAt(steps, g, now, n, i); }
    if AnyRefused(steps, g, now, n) {
      var i :| 0 <= i < n && NewlyDenied(steps[i], CheckedStep(steps, g, now, i));
      assert NewlyDenied(steps[i], after[i]);
    }
  }

  /** No calls of others unlink anything, as long as the requests they create are new. */
  lemma {:induction false} RunKeepsLinked(steps: seq<Step>, g: Gate, ops: seq<GateOp>, n: nat)
    requires n <= |ops| && GateInv(g) && Linked(steps, g) && FreshIds(g, ops)
    ensures GateInv(After(g, ops, n)) && Linked(steps, After(g, ops, n))
  {
    if n > 0 {
      RunKeepsLinked(steps, g, ops, n - 1);
      StepKeepsInv(After(g, ops, n - 1), ops[n - 1]);
      assert NewAt(g, ops, n - 1);
      LinkedKept(steps, After(g, ops, n - 1), ops[n - 1]);
    }
  }

  // ---------------------------------------------------------------- what one check reports

  ghost predicate NoneDenied(steps: seq<Step>) { forall i :: 0 <= i < |steps| ==> !steps[i].state.Denied? }

  /** The workflow: its steps, the gate, and its own state. */
  datatype Flow = Flow(steps: seq<Step>, gate: Gate, state: FlowState)

  /** One status check. */
  ghost function Polled(f: Flow, now: real): Flow {
    var after := Checked(f.steps, f.gate, now, |f.steps|);
    Flow(after, CheckedGate(f.steps, f.gate, now, |f.steps|), Verdict(f.steps, after, f.state))
  }

  /** The same steps, whatever their states. */
  ghost predicate SameSteps(before: seq<Step>, after: seq<Step>) {
    |before| == |after| && forall i :: 0 <= i < |before| ==> after[i].(state := before[i].state) == before[i]
  }

  /** A check keeps every step, its links, and its settled states. */
  lemma PolledKeeps(f: Flow, now: real)
    requires GateInv(f.gate) && Linked(f.steps, f.gate)
    ensures var p := Polled(f, now);
            && GateInv(p.gate) && Linked(p.steps, p.gate) && SameSteps(f.steps, p.steps)
            && forall i :: 0 <= i < |f.steps| ==>
                 p.steps[i] == f.steps[i] || (StillPending(f.steps[i]) && p.steps[i].state in {Granted, Denied})
  {
    var n := |f.steps|;
    CheckedLinked(f.steps, f.gate, now, n);
    assert Checked(f.steps, f.gate, now, n) + f.steps[n..] == Checked(f.steps, f.gate, now, n);
    forall i | 0 <= i < n
      ensures Polled(f, now).steps[i] == CheckedStep(f.steps, f.gate, now, i)
    {
      CheckedAt(f.steps, f.gate, now, n, i);
    }
  }

  /** Nothing pending and nothing newly refused: the check reports approval. */
  ghost predicate ReportsApproval(f: Flow, now: real) {
    forall i :: 0 <= i < |f.steps| ==>
      !StillPending(Polled(f, now).steps[i]) && !NewlyDenied(f.steps[i], Polled(f, now).steps[i])
  }

  /**
   The report means that every step is approved exactly when no step had been refused by an earlier
   check: a refused step is not looked at again.
   */
  lemma ApprovalReportSoundExactly(f: Flow, now: real)
    requires GateInv(f.gate) && Linked(f.steps, f.gate) && ReportsApproval(f, now)
    ensures Polled(f, now).state == Granted
    ensures (forall i :: 0 <= i < |f.steps| ==> Polled(f, now).steps[i].state.Granted?) <==> NoneDenied(f.steps)
  {
    var p := Polled(f, now);
    PolledKeeps(f, now);
    forall i | 0 <= i < |f.steps| ensures p.steps[i].state.Granted? <==> !f.steps[i].state.Denied? {
      assert StepLinked(p.steps[i], p.gate) && StepLinked(f.steps[i], f.gate);
      assert !StillPending(p.steps[i]) && !NewlyDenied(f.steps[i], p.steps[i]);
    }
  }

  lemma {:induction false} ClearedStaysChecked(steps: seq<Step>, g: Gate, now: real, n: nat, i: nat)
    requires n <= |steps| && i < |steps| && GateInv(g) && StepLinked(steps[i], g)
    requires StillPending(steps[i]) ==> Cleared(g.requests[steps[i].request.value])
    ensures var g' := CheckedGate(steps, g, now, n);
            StillPending(steps[i]) ==> steps[i].request.value in g'.requests
                                       && g'.requests[steps[i].request.value] == g.requests[steps[i].request.value]
  {
    if n > 0 { ClearedStaysChecked(steps, g, now, n - 1, i); }
  }

  /** So a refusal is forgotten: once the other requests are cleared, the next check reports approval. */
  lemma RefusalForgotten(f: Flow, now: real)
    requires Linked(f.steps, f.gate) && GateInv(f.gate) && !NoneDenied(f.steps)
    requires forall i :: 0 <= i < |f.steps| && StillPending(f.steps[i]) ==> Cleared(f.gate.requests[f.steps[i].request.value])
    ensures Polled(f, now).state == Granted && !NoneDenied(Polled(f, now).steps)
  {
    PolledKeeps(f, now);
    forall i | 0 <= i < |f.steps|
      ensures !StillPending(Polled(f, now).steps[i]) && !NewlyDenied(f.steps[i], Polled(f, now).steps[i])
    {
      CheckedAt(f.steps, f.gate, now, |f.steps|, i);
      ClearedStaysChecked(f.steps, f.gate, now, i, i);
      assert StepLinked(f.steps[i], f.gate);
    }
    ApprovalReportSoundExactly(f, now);
    var i :| 0 <= i < |f.steps| && f.steps[i].state.Denied?;
    assert Polled(f, now).steps[i].state.Denied?;
  }

  /** A request that clears a step of this operation and level: a critical one took two people or none at all. */
  ghost predicate ClearsStep(r: Request, operation: string, level: Level) {
    && r.status in {Approved, AutoApproved} && r.operation == operation
    && (level == Medium ==> r.riskLevel == "medium")
    && (level == High ==> r.riskLevel == "high")
    && (level == Critical ==> r.riskLevel == "critical" && (r.status == AutoApproved || |Distinct(r.approvedBy)| == 2))
  }

  /** A granted step: from medium risk on with its own cleared request, below that with none. */
  ghost predicate ProperlyApproved(step: Step, g: Gate) {
    && step.state == Granted
    && (step.level in {Medium, High, Critical} ==>
          step.request.Some? && step.request.value in g.requests
          && ClearsStep(g.requests[step.request.value], step.operation, step.level))
    && (step.level in {Safe, Low} ==> step.request == None)
  }

  lemma LinkedGrantedIsProper(step: Step, g: Gate)
    requires GateInv(g) && StepLinked(step, g) && step.state.Granted?
    ensures ProperlyApproved(step, g)
  {}

  ghost predicate AllApproved(f: Flow) { forall i :: 0 <= i < |f.steps| ==> ProperlyApproved(f.steps[i], f.gate) }

  /** A step is refused, and so is its request. */
  ghost predicate SomeRefused(f: Flow) {
    exists i :: 0 <= i < |f.steps| && f.steps[i].state == Denied && f.steps[i].request.Some?
                && f.steps[i].request.value in f.gate.requests
                && f.gate.requests[f.steps[i].request.value].status in {Rejected, TimedOut}
  }

  /** As submission leaves a workflow, and as an unfinished poll leaves it. */
  ghost predicate WaitingFlow(f: Flow) {
    && GateInv(f.gate) && Linked(f.steps, f.gate) && NoneDenied(f.steps) && DistinctRequests(f.steps)
    && (f.state == AwaitingApproval
        || (f.state == Granted && forall i :: 0 <= i < |f.steps| ==> !StillPending(f.steps[i])))
  }

  predicate Over(state: FlowState) { state == Granted || state == Denied }

  /** One check of a waiting workflow: approved with reason, refused with reason, or still waiting. */
  lemma VerdictExplained(f: Flow, now: real)
    requires WaitingFlow(f)
    ensures var p := Polled(f, now);
            && GateInv(p.gate) && Linked(p.steps, p.gate) && SameSteps(f.steps, p.steps) && DistinctRequests(p.steps)
            && (p.state == Granted ==> AllApproved(p))
            && (p.state == Denied ==> SomeRefused(p))
            && (!Over(p.state) ==> WaitingFlow(p))
  {
    var p := Polled(f, now);
    PolledKeeps(f, now);
    forall i | 0 <= i < |p.steps|
      ensures StillPending(p.steps[i]) ==> StillPending(f.steps[i])
      ensures p.steps[i].state.Denied? ==> NewlyDenied(f.steps[i], p.steps[i])
      ensures p.steps[i].state.Granted? ==> ProperlyApproved(p.steps[i], p.gate)
      ensures p.steps[i].state.Granted? || p.steps[i].state.Denied? || StillPending(p.steps[i])
    {
      assert StepLinked(p.steps[i], p.gate) && StepLinked(f.steps[i], f.gate);
      if p.steps[i].state.Granted? { LinkedGrantedIsProper(p.steps[i], p.gate); }
    }
  }

  // ---------------------------------------------------------------- what one check reports, from the gate alone

  /** An awaiting step whose request is refused, or open past its deadline. */
  ghost predicate RefusedAt(f: Flow, now: real, i: nat)
    requires i < |f.steps|
  {
    && f.steps[i].state == AwaitingApproval && f.steps[i].request.Some? && f.steps[i].request.value in f.gate.requests
    && var r := f.gate.requests[f.steps[i].request.value];
    r.status in {Rejected, TimedOut} || (r.status == Pending && now - r.createdAt > r.timeout)
  }

  /** An awaiting step whose request is approved. */
  ghost predicate ApprovedAt(f: Flow, i: nat)
    requires i < |f.steps|
  {
    && f.steps[i].state == AwaitingApproval && f.steps[i].request.Some? && f.steps[i].request.value in f.gate.requests
    && f.gate.requests[f.steps[i].request.value].status in {Approved, AutoApproved}
  }

  /** The checks only ever time a request out, and only one that is open past its deadline. */
  lemma {:induction false} CheckedGateAt(steps: seq<Step>, g: Gate, now: real, n: nat, id: string)
    requires n <= |steps| && id in g.requests
    ensures var r, g' := g.requests[id], CheckedGate(steps, g, now, n);
            && id in g'.requests
            && (g'.requests[id] == r || (r.status == Pending && now - r.createdAt > r.timeout
                                         && g'.requests[id] == r.(status := TimedOut, resolvedAt := Some(now))))
  {
    if n > 0 { CheckedGateAt(steps, g, now, n - 1, id); }
  }

  lemma PolledStep(f: Flow, now: real, i: nat)
    requires Linked(f.steps, f.gate) && i < |f.steps|
    ensures var step, step' := f.steps[i], Polled(f, now).steps[i];
            step' == if RefusedAt(f, now, i) then step.(state := Denied)
                     else if ApprovedAt(f, i) then step.(state := Granted) else step
  {
    CheckedAt(f.steps, f.gate, now, |f.steps|, i);
    assert StepLinked(f.steps[i], f.gate);
    if StillPending(f.steps[i]) { CheckedGateAt(f.steps, f.gate, now, i, f.steps[i].request.value); }
  }

  /**
   One check, from the gate as it finds it: the workflow is refused exactly when some awaiting step's
   request is rejected, timed out or open past its deadline; else it is approved exactly when every
   awaiting step's request is approved; else its state stays.
   */
  lemma PollExactly(f: Flow, now: real)
    requires Linked(f.steps, f.gate)
    ensures Polled(f, now).state ==
              if exists i :: 0 <= i < |f.steps| && RefusedAt(f, now, i) then Denied
              else if forall i :: 0 <= i < |f.steps| && f.steps[i].state == AwaitingApproval ==> ApprovedAt(f, i) then Granted
              else f.state
    ensures forall i :: 0 <= i < |f.steps| ==>
              Polled(f, now).steps[i] == if RefusedAt(f, now, i) then f.steps[i].(state := Denied)
                                         else if ApprovedAt(f, i) then f.steps[i].(state := Granted) else f.steps[i]
  {
    var p := Polled(f, now);
    forall i | 0 <= i < |f.steps|
      ensures p.steps[i] == if RefusedAt(f, now, i) then f.steps[i].(state := Denied)
                            else if ApprovedAt(f, i) then f.steps[i].(state := Granted) else f.steps[i]
      ensures NewlyDenied(f.steps[i], p.steps[i]) <==> RefusedAt(f, now, i)
      ensures StillPending(p.steps[i]) <==> f.steps[i].state == AwaitingApproval && !RefusedAt(f, now, i) && !ApprovedAt(f, i)
    {
      PolledStep(f, now, i);
      assert StepLinked(f.steps[i], f.gate);
    }
  }

  /** So a poll past the deadline of one step's open request refuses the whole workflow. */
  lemma OverduePollRefuses(f: Flow, now: real, i: nat)
    requires Linked(f.steps, f.gate) && i < |f.steps| && f.steps[i].state == AwaitingApproval && f.steps[i].request.Some?
    requires var r := f.gate.requests[f.steps[i].request.value]; r.status == Pending && now - r.createdAt > r.timeout
    ensures Polled(f, now).state == Denied && Polled(f, now).steps[i].state == Denied
  {
    PollExactly(f, now);
    assert RefusedAt(f, now, i);
  }

  // ---------------------------------------------------------------- waiting

  /** Between two polls: the gate's clock at the check, then what others do at the gate, then the sleep. */
  datatype Tick = Tick(now: real, ops: seq<GateOp>, elapsed: real)

  /** What others make of the gate while the workflow sleeps. */
  ghost function Paused(p: Flow, ops: seq<GateOp>): Flow { p.(gate := After(p.gate, ops, |ops|)) }

  /** The workflow after n polls and the pauses behind them. */
  ghost function AfterPolls(f: Flow, world: nat -> Tick, n: nat): Flow
    decreases n, 0
  {
    if n == 0 then f else Paused(PolledAt(f, world, n - 1), world(n - 1).ops)
  }

  /** The workflow after the poll that follows them. */
  ghost function PolledAt(f: Flow, world: nat -> Tick, n: nat): Flow
    decreases n, 1
  {
    Polled(AfterPolls(f, world, n), world(n).now)
  }

  ghost function Waited(world: nat -> Tick, n: nat): real {
    if n == 0 then 0.0 else Waited(world, n - 1) + world(n - 1).elapsed
  }

  /** Sleeps last at least the poll interval, and nobody creates a request under an id in use. */
  ghost predicate PatientWorld(f: Flow, world: nat -> Tick, poll: real) {
    forall n: nat :: PatientAt(f, world, poll, n)
  }

  ghost predicate PatientAt(f: Flow, world: nat -> Tick, poll: real, n: nat) {
    world(n).elapsed >= poll && FreshIds(PolledAt(f, world, n).gate, world(n).ops)
  }

  /** The wait ends after n unfinished polls, with the next poll if it is final, else with the time used up. */
  ghost predicate IsWait(f: Flow, world: nat -> Tick, maxWait: real, n: nat, result: Flow) {
    && Unfinished(f, world, maxWait, n)
    && if Waited(world, n) < maxWait then result == PolledAt(f, world, n) && Over(result.state)
       else result == AfterPolls(f, world, n).(state := Denied)
  }

  /** That says exactly when the wait ends and with what. */
  lemma WaitUnique(f: Flow, world: nat -> Tick, maxWait: real, n: nat, result: Flow, n': nat, result': Flow)
    requires IsWait(f, world, maxWait, n, result) && IsWait(f, world, maxWait, n', result')
    ensures n == n' && result == result'
  {
    assert n < n' ==> NotFinal(f, world, maxWait, n);
    assert n' < n ==> NotFinal(f, world, maxWait, n');
  }

  lemma SameStepsChain(a: seq<Step>, b: seq<Step>, c: seq<Step>)
    requires SameSteps(a, b) && SameSteps(b, c)
    ensures SameSteps(a, c)
  {
    forall i | 0 <= i < |a| ensures c[i].(state := a[i].state) == a[i] {
      assert b[i].(state := a[i].state) == a[i] && c[i].(state := b[i].state) == b[i];
    }
  }

  lemma PauseKeepsWaiting(p: Flow, ops: seq<GateOp>)
    requires WaitingFlow(p) && FreshIds(p.gate, ops)
    ensures WaitingFlow(Paused(p, ops))
  {
    RunKeepsLinked(p.steps, p.gate, ops, |ops|);
  }

  lemma UnfinishedTurn(f: Flow, tick: Tick)
    requires WaitingFlow(f) && !Over(Polled(f, tick.now).state) && FreshIds(Polled(f, tick.now).gate, tick.ops)
    ensures WaitingFlow(Paused(Polled(f, tick.now), tick.ops))
    ensures SameSteps(f.steps, Paused(Polled(f, tick.now), tick.ops).steps)
  {
    VerdictExplained(f, tick.now);
    PauseKeepsWaiting(Polled(f, tick.now), tick.ops);
  }

  /** None of the first n polls was final. */
  ghost predicate Unfinished(f: Flow, world: nat -> Tick, maxWait: real, n: nat) {
    forall j: nat :: j < n ==> NotFinal(f, world, maxWait, j)
  }

  ghost predicate NotFinal(f: Flow, world: nat -> Tick, maxWait: real, j: nat) {
    Waited(world, j) < maxWait && !Over(PolledAt(f, world, j).state)
  }

  lemma StillWaitingStep(f: Flow, world: nat -> Tick, n: nat)
    requires WaitingFlow(AfterPolls(f, world, n)) && !Over(PolledAt(f, world, n).state)
    requires FreshIds(PolledAt(f, world, n).gate, world(n).ops) && SameSteps(f.steps, AfterPolls(f, world, n).steps)
    ensures WaitingFlow(AfterPolls(f, world, n + 1)) && SameSteps(f.steps, AfterPolls(f, world, n + 1).steps)
  {
    var before := AfterPolls(f, world, n);
    UnfinishedTurn(before, world(n));
    SameStepsChain(f.steps, before.steps, AfterPolls(f, world, n + 1).steps);
  }

  lemma {:induction false} StillWaiting(f: Flow, world: nat -> Tick, poll: real, maxWait: real, n: nat)
    requires WaitingFlow(f) && PatientWorld(f, world, poll) && Unfinished(f, world, maxWait, n)
    ensures WaitingFlow(AfterPolls(f, world, n)) && SameSteps(f.steps, AfterPolls(f, world, n).steps)
  {
    if n > 0 {
      assert NotFinal(f, world, maxWait, n - 1) && PatientAt(f, world, poll, n - 1);
      StillWaiting(f, world, poll, maxWait, n - 1);
      StillWaitingStep(f, world, n - 1);
    }
  }

  lemma TurnMeans(f: Flow, world: nat -> Tick, poll: real, maxWait: real, n: nat)
    requires WaitingFlow(f) && PatientWorld(f, world, poll) && Unfinished(f, world, maxWait, n) && Waited(world, n) < maxWait
    ensures WaitingFlow(AfterPolls(f, world, n)) && world(n).elapsed >= poll
    ensures FreshIds(PolledAt(f, world, n).gate, world(n).ops)
    ensures Over(PolledAt(f, world, n).state) || Unfinished(f, world, maxWait, n + 1)
  {
    StillWaiting(f, world, poll, maxWait, n);
    assert PatientAt(f, world, poll, n);
    assert Over(PolledAt(f, world, n).state) || NotFinal(f, world, maxWait, n);
  }

  /**
   What the wait promises about the steps that were submitted: they come back with nothing changed
   but their states; approval means that each of them is properly approved; refusal means that one
   was refused or the time was used up.
   */
  lemma WaitMeans(f: Flow, world: nat -> Tick, poll: real, maxWait: real, n: nat, result: Flow)
    requires WaitingFlow(f) && PatientWorld(f, world, poll) && IsWait(f, world, maxWait, n, result)
    ensures GateInv(result.gate) && Linked(result.steps, result.gate)
    ensures SameSteps(f.steps, result.steps) && DistinctRequests(result.steps) && Over(result.state)
    ensures result.state == Granted ==> AllApproved(result)
    ensures result.state == Denied ==> SomeRefused(result) || Waited(world, n) >= maxWait
  {
    var before := AfterPolls(f, world, n);
    StillWaiting(f, world, poll, maxWait, n);
    if Waited(world, n) < maxWait {
      VerdictExplained(before, world(n).now);
      SameStepsChain(f.steps, before.steps, result.steps);
    }
  }

  lemma {:induction false} SubmittedAt(steps: seq<Step>, ids: seq<string>, n: nat, i: nat)
    requires i < n <= |steps| == |ids|
    ensures Submitted(steps, ids, n)[i] == SubmittedStep(steps[i], ids[i])
  {
    if i < n - 1 { SubmittedAt(steps, ids, n - 1, i); }
  }

  lemma SubmittedDistinct(steps: seq<Step>, ids: seq<string>)
    requires |steps| == |ids| && NoDuplicates(ids)
    requires forall i :: 0 <= i < |steps| ==> steps[i].request == None
    ensures DistinctRequests(Submitted(steps, ids, |ids|))
  {
    forall i | 0 <= i < |steps| ensures Submitted(steps, ids, |ids|)[i] == SubmittedStep(steps[i], ids[i]) {
      SubmittedAt(steps, ids, |ids|, i);
    }
  }

  /** The workflow's own state after submission. */
  function Opened(steps: seq<Step>): FlowState {
    if exists i :: 0 <= i < |steps| && steps[i].state == AwaitingApproval then AwaitingApproval else Granted
  }

  lemma SubmittedWaits(before: seq<Step>, sessionId: string, ids: seq<string>, g0: Gate, now: real, done: seq<Step>, g: Gate)
    requires |before| == |ids| && Submitting(before, sessionId, ids, g0, now, |before|, done, g) && DistinctRequests(done)
    ensures WaitingFlow(Flow(done, g, Opened(done)))
  {}

  // ---------------------------------------------------------------- what submission asks for

  /** The request that submission makes for a step that needs one. */
  ghost predicate AskedFor(step: Step, sessionId: string, id: string, now: real, g: Gate) {
    && id in g.requests
    && var r := g.requests[id];
    && r.sessionId == sessionId && r.operation == step.operation && r.createdAt == now
    && (step.level == Medium ==> r.riskLevel == "medium" && r.kind == Single && r.timeout == 300.0)
    && (step.level == High ==> r.riskLevel == "high" && r.kind == Single && r.timeout == 600.0)
    && (step.level == Critical ==> r.riskLevel == "critical" && r.kind == Dual && r.timeout == 1800.0)
    && r.status == (if g.autoApprove then AutoApproved else Pending)
  }

  /** Step i behind the submission: from medium risk on it awaits its own new request, below that it is granted. */
  ghost predicate SubmittedAs(step: Step, sessionId: string, id: string, now: real, after: Step, g: Gate) {
    if step.level in {Medium, High, Critical} then
      after == step.(request := Some(id), state := AwaitingApproval) && AskedFor(step, sessionId, id, now, g)
    else after == step.(state := Granted) && id !in g.requests
  }

  lemma {:induction false} SubmittedGateAt(steps: seq<Step>, sessionId: string, ids: seq<string>, g: Gate, now: real, n: nat)
    requires n <= |steps| == |ids| && DistinctIds(ids, g)
    ensures var g' := SubmittedGate(steps, sessionId, ids, g, now, n);
            && g'.autoApprove == g.autoApprove
            && (forall i :: 0 <= i < n && steps[i].level in {Medium, High, Critical} ==> AskedFor(steps[i], sessionId, ids[i], now, g'))
            && (forall i :: 0 <= i < |ids| && (i >= n || steps[i].level in {Safe, Low}) ==> ids[i] !in g'.requests)
            && (forall k :: k in g.requests ==> k in g'.requests && g'.requests[k] == g.requests[k])
  {
    if n > 0 { SubmittedGateAt(steps, sessionId, ids, g, now, n - 1); }
  }

  /**
   Submission makes one request for each step of medium, high or critical risk, and none for safe
   and low ones, which are granted at once; the workflow waits exactly when some step does.
   */
  lemma SubmissionExactly(steps: seq<Step>, sessionId: string, ids: seq<string>, g: Gate, now: real)
    requires |steps| == |ids| && DistinctIds(ids, g)
    requires forall i :: 0 <= i < |steps| ==> steps[i].request == None
    ensures var after, g' := Submitted(steps, ids, |ids|), SubmittedGate(steps, sessionId, ids, g, now, |ids|);
            && (forall i :: 0 <= i < |steps| ==> SubmittedAs(steps[i], sessionId, ids[i], now, after[i], g'))
            && (forall k :: k in g.requests ==> k in g'.requests && g'.requests[k] == g.requests[k])
            && Opened(after) == if exists i :: 0 <= i < |steps| && steps[i].level in {Medium, High, Critical}
                                then AwaitingApproval else Granted
  {
    var after := Submitted(steps, ids, |ids|);
    SubmittedGateAt(steps, sessionId, ids, g, now, |ids|);
    forall i | 0 <= i < |steps| ensures after[i] == SubmittedStep(steps[i], ids[i]) { SubmittedAt(steps, ids, |ids|, i); }
  }

  /** A submitted step as it is when the workflow is approved. */
  ghost predicate ApprovedAs(step: Step, id: string, g: Gate) {
    step.level in {Medium, High, Critical} ==>
      id in g.requests && ClearsStep(g.requests[id], step.operation, step.level)
  }

  /** From submission to approval: the request made for each step is the one that was approved. */
  lemma {:induction false} ApprovedAsSubmitted(steps: seq<Step>, ids: seq<string>, f: Flow, world: nat -> Tick, poll: real,
                                               maxWait: real, n: nat, result: Flow)
    requires |steps| == |ids| && f.steps == Submitted(steps, ids, |ids|)
    requires WaitingFlow(f) && PatientWorld(f, world, poll) && IsWait(f, world, maxWait, n, result)
    requires result.state == Granted
    ensures forall i :: 0 <= i < |steps| ==> ApprovedAs(steps[i], ids[i], result.gate)
  {
    WaitMeans(f, world, poll, maxWait, n, result);
    forall i | 0 <= i < |steps| ensures ApprovedAs(steps[i], ids[i], result.gate) {
      SubmittedAt(steps, ids, |ids|, i);
      assert ProperlyApproved(result.steps[i], result.gate) && result.steps[i].(state := f.steps[i].state) == f.steps[i];
    }
  }

  ghost function PollsLeft(maxWait: real, waited: real, poll: real): nat
    requires poll > 0.0
  {
    if waited >= maxWait then 0
    else
      assert (maxWait - waited) / poll >= 0.0;
      ((maxWait - waited) / poll).Floor + 1
  }

  lemma PollsFall(maxWait: real, waited: real, poll: real, elapsed: real)
    requires 0.0 < poll <= elapsed && waited < maxWait
    ensures PollsLeft(maxWait, waited + elapsed, poll) < PollsLeft(maxWait, waited, poll)
  {
    if waited + elapsed < maxWait {
      QuotientGap(maxWait - waited, maxWait - (waited + elapsed), poll);
      FloorGap((maxWait - waited) / poll, (maxWait - (waited + elapsed)) / poll);
    }
  }

  lemma QuotientGap(a: real, b: real, poll: real)
    requires poll > 0.0 && b + poll <= a
    ensures b / poll + 1.0 <= a / poll
  {
    var x, y := a / poll, b / poll;
    assert x * poll == a && y * poll == b;
    assert (y + 1.0) * poll == y * poll + poll;
    if x < y + 1.0 { Scale(x, y + 1.0, poll); }
  }

  lemma FloorGap(x: real, y: real)
    requires y + 1.0 <= x
    ensures y.Floor < x.Floor
  {}

  // ---------------------------------------------------------------- a forgotten refusal

  const TWO_STEPS := [Step("first", Medium, None, RiskAssessed), Step("second", Medium, None, RiskAssessed)]

  /** A medium request of that workflow, created at time zero. */
  function Asked(id: string, operation: string): Request {
    NewRequest(false, id, "session", operation, "medium", 300.0, 0.0)
  }

  function TwoFlow(first: Request, firstState: FlowState, second: Request, secondState: FlowState, state: FlowState): Flow {
    Flow([Step("first", Medium, Some("r1"), firstState), Step("second", Medium, Some("r2"), secondState)],
         Gate(false, map["r1" := first, "r2" := second]), state)
  }

  lemma TwoSubmitted()
    ensures var f := TwoFlow(Asked("r1", "first"), AwaitingApproval, Asked("r2", "second"), AwaitingApproval, AwaitingApproval);
            && Submitted(TWO_STEPS, ["r1", "r2"], 2) == f.steps && Opened(f.steps) == f.state
            && SubmittedGate(TWO_STEPS, "session", ["r1", "r2"], Gate(false, map[]), 0.0, 2) == f.gate
  {
    var ids := ["r1", "r2"];
    assert Submitted(TWO_STEPS, ids, 1) == [SubmittedStep(TWO_STEPS[0], "r1")];
    assert SubmittedGate(TWO_STEPS, "session", ids, Gate(false, map[]), 0.0, 1)
           == Gate(false, map["r1" := Asked("r1", "first")]);
    var steps := Submitted(TWO_STEPS, ids, 2);
    assert steps[0].state == AwaitingApproval;
  }

  lemma TwoPolled(first: Request, firstState: FlowState, second: Request, state: FlowState)
    requires !IsTimedOut(first, 0.0) && !IsTimedOut(second, 0.0)
    ensures var f := TwoFlow(first, firstState, second, AwaitingApproval, state);
            var s1 := CheckStep(f.steps[0], f.gate, 0.0).state;
            var s2 := CheckStep(f.steps[1], f.gate, 0.0).state;
            && Polled(f, 0.0).steps == TwoFlow(first, s1, second, s2, state).steps
            && Polled(f, 0.0).gate == f.gate
            && Polled(f, 0.0).state == Verdict(f.steps, TwoFlow(first, s1, second, s2, state).steps, state)
  {
    var f := TwoFlow(first, firstState, second, AwaitingApproval, state);
    assert CheckStepGate(f.steps[0], f.gate, 0.0).requests == f.gate.requests;
    assert CheckedGate(f.steps, f.gate, 0.0, 1) == f.gate;
    assert CheckStepGate(f.steps[1], f.gate, 0.0).requests == f.gate.requests;
    assert Checked(f.steps, f.gate, 0.0, 1) == [CheckStep(f.steps[0], f.gate, 0.0)];
  }

  /** One operation at the gate, then a check, all at time zero. */
  ghost function ActAndPoll(f: Flow, op: GateOp): Flow { Polled(f.(gate := Apply(f.gate, op).0), 0.0) }

  function Refusal(): Request { RejectRequest(Asked("r1", "first"), "someone", "no", 0.0).0 }

  /** The workflow after the first step's refusal was seen. */
  function OneRefused(): Flow { TwoFlow(Refusal(), Denied, Asked("r2", "second"), AwaitingApproval, Denied) }

  lemma RefusalSeen()
    ensures var f := TwoFlow(Asked("r1", "first"), AwaitingApproval, Asked("r2", "second"), AwaitingApproval, AwaitingApproval);
            ActAndPoll(f, Reject("r1", "someone", "no", 0.0)) == OneRefused()
  {
    var a, b := Asked("r1", "first"), Asked("r2", "second");
    var f := TwoFlow(a, AwaitingApproval, b, AwaitingApproval, AwaitingApproval);
    assert Apply(f.gate, Reject("r1", "someone", "no", 0.0)).0.requests == map["r1" := Refusal(), "r2" := b];
    TwoPolled(Refusal(), AwaitingApproval, b, AwaitingApproval);
    assert NewlyDenied(f.steps[0], OneRefused().steps[0]);
  }

  lemma RefusalLost()
    ensures var f := ActAndPoll(OneRefused(), Approve("r2", "someone", 0.0));
            f.state == Granted && f.steps[0].state == Denied
  {
    var yes := ApproveRequest(Asked("r2", "second"), "someone", 0.0).0;
    assert Apply(OneRefused().gate, Approve("r2", "someone", 0.0)).0.requests == map["r1" := Refusal(), "r2" := yes];
    TwoPolled(Refusal(), Denied, yes, Denied);
  }

  /**
   From a fresh submission of two steps: the first is refused and a check reports refusal; then the
   second is approved, and the next check reports approval with the first step still refused.
   */
  lemma RefusalForgottenFromSubmission()
    ensures var g := SubmittedGate(TWO_STEPS, "session", ["r1", "r2"], Gate(false, map[]), 0.0, 2);
            var f0 := Flow(Submitted(TWO_STEPS, ["r1", "r2"], 2), g, AwaitingApproval);
            var f1 := ActAndPoll(f0, Reject("r1", "someone", "no", 0.0));
            var f2 := ActAndPoll(f1, Approve("r2", "someone", 0.0));
            f1.state == Denied && f2.state == Granted && f2.steps[0].state == Denied
  {
    TwoSubmitted();
    RefusalSeen();
    RefusalLost();
  }

  // ---------------------------------------------------------------- the class

  class ApprovalWorkflow {
    const gate: HITLGate
    const sessionId: string
    var steps: seq<Step>
    var state: FlowState

    /** A workflow whose operations have been classified but not yet submitted. */
    constructor (gate: HITLGate, sessionId: string, operations: seq<(string, Level)>)
      ensures this.gate == gate && state == RiskAssessed && |steps| == |operations|
      ensures forall i :: 0 <= i < |steps| ==> steps[i] == Step(operations[i].0, operations[i].1, None, RiskAssessed)
    {
      this.gate, this.sessionId, state := gate, sessionId, RiskAssessed;
      steps := seq(|operations|, i requires 0 <= i < |operations| => Step(operations[i].0, operations[i].1, None, RiskAssessed));
    }

    ghost function View(): Flow
      reads this, gate, gate.requests.Values
    {
      Flow(steps, gate.View(), state)
    }

    ghost predicate Valid()
      reads this, gate, gate.requests.Values
    {
      gate.Valid() && GateInv(gate.View()) && Linked(steps, gate.View())
    }

    /** As submission leaves a workflow, and as an unfinished poll leaves it. */
    ghost predicate Waiting()
      reads this, gate, gate.requests.Values
    {
      gate.Valid() && WaitingFlow(View())
    }

    /** One turn of the submission loop. */
    method SubmitOne(i: nat, id: string, now: real)
      requires i < |steps| && gate.Valid() && id !in gate.requests
      modifies this, gate
      ensures gate.Valid() && state == old(state) && steps == old(steps)[i := SubmittedStep(old(steps)[i], id)]
      ensures gate.requests.Keys == old(gate.requests.Keys) + if NeedsApproval(old(steps)[i].level) then {id} else {}
      ensures gate.View() == SubmitStepGate(old(steps)[i], sessionId, id, old(gate.View()), now)
    {
      var step := steps[i];
      if NeedsApproval(step.level) {
        var _ := gate.CreateRequest(id, sessionId, step.operation, Label(step.level), SuggestedTimeout(step.level), now);
        steps := steps[i := step.(request := Some(id), state := AwaitingApproval)];
      } else {
        steps := steps[i := step.(state := Granted)];
      }
    }

    method SubmitForApproval(ids: seq<string>, now: real)
      requires gate.Valid() && GateInv(gate.View()) && |ids| == |steps| && DistinctIds(ids, gate.View())
      requires forall i :: 0 <= i < |steps| ==> steps[i].request == None
      modifies this, gate
      ensures Waiting() && steps == Submitted(old(steps), ids, |ids|)
      ensures gate.View() == SubmittedGate(old(steps), sessionId, ids, old(gate.View()), now, |ids|)
      ensures forall i :: 0 <= i < |steps| ==> SubmittedAs(old(steps)[i], sessionId, ids[i], now, steps[i], gate.View())
      ensures state == if exists i :: 0 <= i < |steps| && old(steps)[i].level in {Medium, High, Critical} then AwaitingApproval else Granted
    {
      ghost var before, g := steps, gate.View();
      SubmitAll(ids, now);
      SubmittedDistinct(before, ids);
      SubmittedWaits(before, sessionId, ids, g, now, steps, gate.View());
      SubmissionExactly(before, sessionId, ids, g, now);
      Open();
    }

    /** The workflow's own state after the loop. */
    method Open()
      requires gate.Valid()
      modifies this`state
      ensures gate.Valid() && View() == old(View()).(state := Opened(steps))
    {
      state := if exists i :: 0 <= i < |steps| && steps[i].state == AwaitingApproval then AwaitingApproval else Granted;
    }

    /** The submission loop. */
    method SubmitAll(ids: seq<string>, now: real)
      requires gate.Valid() && GateInv(gate.View()) && |ids| == |steps| && DistinctIds(ids, gate.View())
      requires forall i :: 0 <= i < |steps| ==> steps[i].request == None
      modifies this, gate
      ensures gate.Valid() && |steps| == |ids|
      ensures Submitting(old(steps), sessionId, ids, old(gate.View()), now, |ids|, steps, gate.View())
    {
      ghost var before, g := steps, gate.View();
      ghost var done := [];
      for i := 0 to |steps|
        invariant gate.Valid() && |steps| == |before| && steps == done + before[i..]
        invariant Submitting(before, sessionId, ids, g, now, i, done, gate.View())
        modifies this, gate
      {
        SubmittingStep(before, sessionId, ids, g, now, i, done, gate.View());
        Splice(done, before, i, SubmittedStep(before[i], ids[i]));
        SubmitOne(i, ids[i], now);
        done := done + [SubmittedStep(before[i], ids[i])];
      }
      assert before[|before|..] == [];
    }

    /** The status check: every awaiting step takes over its request's outcome, then the workflow its steps'. */
    method CheckApprovalStatus(now: real)
      requires Valid()
      modifies this`steps, this`state, gate.requests.Values
      ensures Valid() && gate.requests == old(gate.requests)
      ensures View() == Polled(old(View()), now)
    {
      ghost var f := View();
      var allApproved, anyRejected := CheckSteps(now);
      FlagsMean(f.steps, f.gate, now, f.state);
      PolledKeeps(f, now);
      Settle(allApproved, anyRejected);
    }

    method Settle(allApproved: bool, anyRejected: bool)
      requires gate.Valid()
      modifies this`state
      ensures state == if anyRejected then Denied else if allApproved then Granted else old(state)
      ensures gate.Valid() && gate.View() == old(gate.View())
    {
      if anyRejected {
        state := Denied;
      } else if allApproved {
        state := Granted;
      }
    }

    /** The loop over the steps. */
    method CheckSteps(now: real) returns (allApproved: bool, anyRejected: bool)
      requires Valid()
      modifies this`steps, gate.requests.Values
      ensures gate.Valid() && gate.requests == old(gate.requests)
      ensures steps == Checked(old(steps), old(gate.View()), now, |old(steps)|)
      ensures gate.View() == CheckedGate(old(steps), old(gate.View()), now, |old(steps)|)
      ensures allApproved == AllSettled(old(steps), old(gate.View()), now, |old(steps)|)
      ensures anyRejected == AnyRefused(old(steps), old(gate.View()), now, |old(steps)|)
    {
      ghost var before, g := steps, gate.View();
      allApproved, anyRejected := true, false;
      var i := 0;
      while i < |steps|
        invariant i <= |steps| && gate.Valid() && gate.requests == old(gate.requests)
        invariant |steps| == |before| && steps == Checked(before, g, now, i) + before[i..]
        invariant gate.View() == CheckedGate(before, g, now, i)
        invariant allApproved == AllSettled(before, g, now, i) && anyRejected == AnyRefused(before, g, now, i)
        modifies this`steps, gate.requests.Values
      {
        allApproved, anyRejected := CheckTurn(i, now, before, g, allApproved, anyRejected);
        i := i + 1;
      }
      assert before[i..] == [];
    }

    method CheckTurn(i: nat, now: real, ghost before: seq<Step>, ghost g: Gate, allApproved: bool, anyRejected: bool)
      returns (allApproved': bool, anyRejected': bool)
      requires gate.Valid() && GateInv(g) && Linked(before, g)
      requires i < |steps| == |before| && steps == Checked(before, g, now, i) + before[i..]
      requires gate.View() == CheckedGate(before, g, now, i)
      requires allApproved == AllSettled(before, g, now, i) && anyRejected == AnyRefused(before, g, now, i)
      modifies this`steps, gate.requests.Values
      ensures gate.Valid() && gate.requests == old(gate.requests)
      ensures |steps| == |before| && steps == Checked(before, g, now, i + 1) + before[i + 1..]
      ensures gate.View() == CheckedGate(before, g, now, i + 1)
      ensures allApproved' == AllSettled(before, g, now, i + 1) && anyRejected' == AnyRefused(before, g, now, i + 1)
    {
      CheckedStepLinked(before, g, now, i);
      TurnList(Checked(before, g, now, i), before, i, CheckedStep(before, g, now, i));
      var answer := CheckOne(i, now);
      allApproved' := allApproved && answer != Some(AwaitingApproval);
      anyRejected' := anyRejected || answer == Some(Denied);
    }

    /** One turn of that loop; the answer is the state of a step that was awaiting, after the check. */
    method CheckOne(i: nat, now: real) returns (answer: Option<FlowState>)
      requires i < |steps| && gate.Valid() && StepLinked(steps[i], gate.View())
      modifies this`steps, gate.requests.Values
      ensures gate.Valid() && gate.requests == old(gate.requests)
      ensures steps == old(steps)[i := CheckStep(old(steps)[i], old(gate.View()), now)]
      ensures gate.View() == CheckStepGate(old(steps)[i], old(gate.View()), now)
      ensures answer == if StillPending(old(steps)[i]) then Some(steps[i].state) else None
    {
      var step := steps[i];
      if step.request == None || step.state != AwaitingApproval { return None; }
      var updated := gate.CheckStatus(step.request.value, now);
      var status := updated.value.status;
      if status == Approved || status == AutoApproved {
        step := step.(state := Granted);
      } else if status == Rejected || status == TimedOut {
        step := step.(state := Denied);
      }
      steps := steps[i := step];
      answer := Some(step.state);
    }

    /**
     The polling wait, against a gate where others may create, approve, reject or check anything
     between two polls, and with sleeps of at least the poll interval. It always returns, exactly
     the workflow that the polls and the pauses make of the one it started with.
     */
    method WaitForApproval(poll: real, maxWait: real, world: nat -> Tick) returns (waited: real, ghost polls: nat)
      requires Waiting() && poll > 0.0 && PatientWorld(View(), world, poll)
      modifies this`steps, this`state, gate, gate.requests.Values
      ensures gate.Valid() && IsWait(old(View()), world, maxWait, polls, View()) && waited == Waited(world, polls)
      ensures Linked(steps, gate.View()) && SameSteps(old(steps), steps) && DistinctRequests(steps) && Over(state)
      ensures state == Granted ==>
                forall i :: 0 <= i < |steps| ==>
                  && steps[i].state == Granted
                  && (steps[i].level in {Medium, High, Critical} ==>
                        steps[i].request.Some? && steps[i].request.value in gate.requests
                        && ClearsStep(gate.requests[steps[i].request.value].View(), steps[i].operation, steps[i].level))
      ensures state == Denied ==> SomeRefused(View()) || waited >= maxWait
    {
      ghost var f := View();
      var over;
      waited, polls, over := PollUntilOver(poll, maxWait, world);
      if !over { GiveUp(); }
      WaitMeans(f, world, poll, maxWait, polls, View());
    }

    method GiveUp()
      requires gate.Valid()
      modifies this`state
      ensures gate.Valid() && View() == old(View()).(state := Denied)
    {
      state := Denied;
    }

    /** Another pause behind us, and so fewer polls ahead. */
    method LongerWait(maxWait: real, waited: real, poll: real, elapsed: real) returns (longer: real)
      requires 0.0 < poll <= elapsed && waited < maxWait
      ensures longer == waited + elapsed && PollsLeft(maxWait, longer, poll) < PollsLeft(maxWait, waited, poll)
    {
      PollsFall(maxWait, waited, poll, elapsed);
      longer := waited + elapsed;
    }

    /** The loop of the wait. */
    method PollUntilOver(poll: real, maxWait: real, world: nat -> Tick) returns (waited: real, ghost polls: nat, over: bool)
      requires Waiting() && poll > 0.0 && PatientWorld(View(), world, poll)
      modifies this`steps, this`state, gate, gate.requests.Values
      ensures gate.Valid() && Unfinished(old(View()), world, maxWait, polls) && waited == Waited(world, polls)
      ensures over ==> waited < maxWait && View() == PolledAt(old(View()), world, polls) && Over(state)
      ensures !over ==> waited >= maxWait && View() == AfterPolls(old(View()), world, polls)
    {
      ghost var f := View();
      waited, over := 0.0, false;
      var i: nat := 0;
      while waited < maxWait
        invariant waited == Waited(world, i)
        invariant gate.Valid() && View() == AfterPolls(f, world, i) && Unfinished(f, world, maxWait, i)
        invariant fresh(gate.requests.Values - old(gate.requests.Values))
        modifies this`steps, this`state, gate, gate.requests.Values
        decreases PollsLeft(maxWait, waited, poll)
      {
        over := Turn(world(i), f, world, poll, maxWait, i);
        if over { return waited, i, over; }
        waited := LongerWait(maxWait, waited, poll, world(i).elapsed);
        i := i + 1;
      }
      polls := i;
    }

    /** One poll and, unless it is final, the pause behind it. */
    method Turn(tick: Tick, ghost f: Flow, ghost world: nat -> Tick, ghost poll: real, ghost maxWait: real, ghost i: nat)
      returns (over: bool)
      requires gate.Valid() && View() == AfterPolls(f, world, i) && tick == world(i)
      requires WaitingFlow(f) && PatientWorld(f, world, poll) && Unfinished(f, world, maxWait, i) && Waited(world, i) < maxWait
      modifies this`steps, this`state, gate, gate.requests.Values
      ensures gate.Valid() && fresh(gate.requests.Values - old(gate.requests.Values)) && tick.elapsed >= poll
      ensures over ==> View() == PolledAt(f, world, i) && Over(state)
      ensures !over ==> View() == AfterPolls(f, world, i + 1) && Unfinished(f, world, maxWait, i + 1)
    {
      TurnMeans(f, world, poll, maxWait, i);
      over := PollThenPause(tick);
    }

    method PollThenPause(tick: Tick) returns (over: bool)
      requires Waiting() && FreshIds(Polled(View(), tick.now).gate, tick.ops)
      modifies this`steps, this`state, gate, gate.requests.Values
      ensures gate.Valid() && fresh(gate.requests.Values - old(gate.requests.Values))
      ensures over == Over(Polled(old(View()), tick.now).state)
      ensures View() == if over then Polled(old(View()), tick.now) else Paused(Polled(old(View()), tick.now), tick.ops)
    {
      CheckApprovalStatus(tick.now);
      over := state == Granted || state == Denied;
      if !over { gate.PerformAll(tick.ops); }
    }
  }
}
