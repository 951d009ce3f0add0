/**
 The human-approval gate in memory mode: requests are created, approved, rejected and checked
 for timeout. Each operation reads the clock once, as the parameter `now`.
 */
module HitlGate {
  import opened Basics
  import opened Wrappers

  datatype Status = Pending | Approved | Rejected | TimedOut | AutoApproved

  datatype ApprovalType = Single | Dual

  datatype Request = Request(
    id: string, sessionId: string, operation: string, riskLevel: string, kind: ApprovalType,
    createdAt: real, timeout: real,
    status: Status, approvedBy: seq<string>, rejectedBy: Option<string>, rejectReason: Option<string>,
    resolvedAt: Option<real>)

  datatype Gate = Gate(autoApprove: bool, requests: map<string, Request>)

  datatype GateError = NotFound | AlreadyResolved(status: Status) | HasTimedOut

  predicate HighRisk(riskLevel: string) { riskLevel in {"high", "critical"} }

  function KindFor(riskLevel: string): ApprovalType { if riskLevel == "critical" then Dual else Single }

  function TimeoutFor(riskLevel: string, timeout: real): real {
    if HighRisk(riskLevel) && timeout < 600.0 then 600.0 else timeout
  }

  predicate IsTimedOut(r: Request, now: real) { r.status.Pending? && now - r.createdAt > r.timeout }

  // ---------------------------------------------------------------- the operations on values

  function NewRequest(auto: bool, id: string, sessionId: string, operation: string, riskLevel: string,
                      timeout: real, now: real): Request
  {
    var r := Request(id, sessionId, operation, riskLevel, KindFor(riskLevel), now, TimeoutFor(riskLevel, timeout),
                     Pending, [], None, None, None);
    if auto then r.(status := AutoApproved, approvedBy := ["dev-auto"], resolvedAt := Some(now)) else r
  }

  function Expire(r: Request, now: real): Request { r.(status := TimedOut, resolvedAt := Some(now)) }

  ghost function Distinct(names: seq<string>): set<string> { set n | n in names }

  ghost function ApproveRequest(r: Request, approver: string, now: real): (Request, Option<GateError>) {
    if !r.status.Pending? then (r, Some(AlreadyResolved(r.status)))
    else if IsTimedOut(r, now) then (Expire(r, now), Some(HasTimedOut))
    else
      var s := r.(approvedBy := r.approvedBy + [approver]);
      if r.kind.Dual? && |Distinct(s.approvedBy)| < 2 then (s, None)
      else (s.(status := Approved, resolvedAt := Some(now)), None)
  }

  function RejectRequest(r: Request, rejector: string, reason: string, now: real): (Request, Option<GateError>) {
    if !r.status.Pending? then (r, Some(AlreadyResolved(r.status)))
    else (r.(status := Rejected, rejectedBy := Some(rejector), rejectReason := Some(reason), resolvedAt := Some(now)), None)
  }

  function CheckRequest(r: Request, now: real): Request { if IsTimedOut(r, now) then Expire(r, now) else r }

  datatype GateOp =
    | Create(id: string, sessionId: string, operation: string, riskLevel: string, timeout: real, now: real)
    | Approve(id: string, approver: string, now: real)
    | Reject(id: string, rejector: string, reason: string, now: real)
    | Check(id: string, now: real)

  /** The gate after one call, and the exception the call raises, if any. */
  ghost function Apply(g: Gate, op: GateOp): (Gate, Option<GateError>) {
    if op.Create? then
      var r := NewRequest(g.autoApprove, op.id, op.sessionId, op.operation, op.riskLevel, op.timeout, op.now);
      (g.(requests := g.requests[op.id := r]), None)
    else if op.id !in g.requests then (g, Some(NotFound))
    else
      var (r, error) := ApplyTo(g.requests[op.id], op);
      (g.(requests := g.requests[op.id := r]), error)
  }

  ghost function ApplyTo(r: Request, op: GateOp): (Request, Option<GateError>)
    requires !op.Create?
  {
    match op
    case Approve(_, approver, now) => ApproveRequest(r, approver, now)
    case Reject(_, rejector, reason, now) => RejectRequest(r, rejector, reason, now)
    case Check(_, now) => (CheckRequest(r, now), None)
  }

  /** The gate after the first n of a sequence of calls. */
  ghost function After(g: Gate, ops: seq<GateOp>, n: nat): Gate
    requires n <= |ops|
  {
    if n == 0 then g else Apply(After(g, ops, n - 1), ops[n - 1]).0
  }

  /** Request ids are never reused: the source draws them at random. */
  ghost predicate FreshIds(g: Gate, ops: seq<GateOp>) {
    forall i :: 0 <= i < |ops| ==> NewAt(g, ops, i)
  }

  ghost predicate NewAt(g: Gate, ops: seq<GateOp>, i: nat)
    requires i < |ops|
  {
    ops[i].Create? ==> ops[i].id !in After(g, ops, i).requests
  }

  // ---------------------------------------------------------------- the class

  class ApprovalRequest {
    const id: string
    const sessionId: string
    const operation: string
    const riskLevel: string
    const kind: ApprovalType
    const createdAt: real
    const timeout: real
    var status: Status
    var approvedBy: seq<string>
    var rejectedBy: Option<string>
    var rejectReason: Option<string>
    var resolvedAt: Option<real>

    constructor (id: string, sessionId: string, operation: string, riskLevel: string, kind: ApprovalType,
                 createdAt: real, timeout: real)
      ensures View() == Request(id, sessionId, operation, riskLevel, kind, createdAt, timeout, Pending, [], None, None, None)
      ensures this.id == id
    {
      this.id, this.sessionId, this.operation, this.riskLevel := id, sessionId, operation, riskLevel;
      this.kind, this.createdAt, this.timeout := kind, createdAt, timeout;
      status, approvedBy, rejectedBy, rejectReason, resolvedAt := Pending, [], None, None, None;
    }

    ghost function View(): Request
      reads this
    {
      Request(id, sessionId, operation, riskLevel, kind, createdAt, timeout,
              status, approvedBy, rejectedBy, rejectReason, resolvedAt)
    }
  }

  class HITLGate {
    const autoApproveDev: bool
    var requests: map<string, ApprovalRequest>

    constructor (autoApproveDev: bool)
      ensures Valid() && View() == Gate(autoApproveDev, map[])
    {
      this.autoApproveDev := autoApproveDev;
      requests := map[];
    }

    /** Each request is stored under its own id, so different ids are different objects. */
    ghost predicate Valid()
      reads this
    {
      forall id :: id in requests ==> requests[id].id == id
    }

    ghost function View(): Gate
      reads this, requests.Values
    {
      Gate(autoApproveDev, map id | id in requests :: requests[id].View())
    }

    /** The request object, resolved at once in development mode. */
    method BuildRequest(id: string, sessionId: string, operation: string, riskLevel: string, timeout: real, now: real)
      returns (request: ApprovalRequest)
      ensures fresh(request) && request.id == id
      ensures request.View() == NewRequest(autoApproveDev, id, sessionId, operation, riskLevel, timeout, now)
    {
      var limit := if riskLevel in {"high", "critical"} && timeout < 600.0 then 600.0 else timeout;
      request := new ApprovalRequest(id, sessionId, operation, riskLevel, KindFor(riskLevel), now, limit);
      if autoApproveDev {
        request.status := AutoApproved;
        request.resolvedAt := Some(now);
        request.approvedBy := ["dev-auto"];
      }
    }

    method CreateRequest(id: string, sessionId: string, operation: string, riskLevel: string, timeout: real, now: real)
      returns (request: ApprovalRequest)
      requires Valid() && id !in requests
      modifies this
      ensures Valid() && fresh(request) && requests == old(requests)[id := request]
      ensures View() == Apply(old(View()), Create(id, sessionId, operation, riskLevel, timeout, now)).0
    {
      request := BuildRequest(id, sessionId, operation, riskLevel, timeout, now);
      requests := requests[id := request];
      assert View().requests == old(View()).requests[id := request.View()];
    }

    method Approve(id: string, approver: string, now: real) returns (answer: Result<ApprovalRequest, GateError>)
      requires Valid()
      modifies requests.Values
      ensures Valid() && requests == old(requests)
      ensures var (g, error) := Apply(old(View()), GateOp.Approve(id, approver, now));
              View() == g && (answer.Failure? <==> error.Some?) && (answer.Failure? ==> answer.error == error.value)
      ensures answer.Success? ==> id in requests && answer.value == requests[id]
    {
      if id !in requests { return Failure(NotFound); }
      var request := requests[id];
      if request.status != Pending { return Failure(AlreadyResolved(request.status)); }
      if now - request.createdAt > request.timeout {
        request.status := TimedOut;
        request.resolvedAt := Some(now);
        return Failure(HasTimedOut);
      }
      request.approvedBy := request.approvedBy + [approver];
      if request.kind == Dual {
        var unique := set name | name in request.approvedBy;
        assert unique == Distinct(request.approvedBy);
        if |unique| >= 2 {
          request.status := Approved;
          request.resolvedAt := Some(now);
        }
      } else {
        request.status := Approved;
        request.resolvedAt := Some(now);
      }
      answer := Success(request);
    }

    method Reject(id: string, rejector: string, reason: string, now: real) returns (answer: Result<ApprovalRequest, GateError>)
      requires Valid()
      modifies requests.Values
      ensures Valid() && requests == old(requests)
      ensures var (g, error) := Apply(old(View()), GateOp.Reject(id, rejector, reason, now));
              View() == g && (answer.Failure? <==> error.Some?) && (answer.Failure? ==> answer.error == error.value)
      ensures answer.Success? ==> id in requests && answer.value == requests[id]
    {
      if id !in requests { return Failure(NotFound); }
      var request := requests[id];
      if request.status != Pending { return Failure(AlreadyResolved(request.status)); }
      request.status := Rejected;
      request.rejectedBy := Some(rejector);
      request.rejectReason := Some(reason);
      request.resolvedAt := Some(now);
      answer := Success(request);
    }

    method CheckStatus(id: string, now: real) returns (answer: Result<ApprovalRequest, GateError>)
      requires Valid()
      modifies requests.Values
      ensures Valid() && requests == old(requests)
      ensures View() == Apply(old(View()), GateOp.Check(id, now)).0
      ensures answer == if id in requests then Success(requests[id]) else Failure(NotFound)
      ensures id in requests ==>
                var late := old(requests[id].status) == Pending && now - requests[id].createdAt > requests[id].timeout;
                && requests[id].status == (if late then TimedOut else old(requests[id].status))
                && requests[id].resolvedAt == (if late then Some(now) else old(requests[id].resolvedAt))
    {
      if id !in requests { return Failure(NotFound); }
      var request := requests[id];
      if request.status == Pending && now - request.createdAt > request.timeout {
        request.status := TimedOut;
        request.resolvedAt := Some(now);
      }
      answer := Success(request);
    }

    /** Any one call, its answer or exception dropped. */
    method Perform(op: GateOp)
      requires Valid() && (op.Create? ==> op.id !in requests)
      modifies this, requests.Values
      ensures Valid() && fresh(requests.Values - old(requests.Values))
      ensures View() == Apply(old(View()), op).0
    {
      match op {
        case Create(id, sessionId, operation, riskLevel, timeout, now) =>
          var _ := CreateRequest(id, sessionId, operation, riskLevel, timeout, now);
        case Approve(id, approver, now) => var _ := this.Approve(id, approver, now);
        case Reject(id, rejector, reason, now) => var _ := this.Reject(id, rejector, reason, now);
        case Check(id, now) => var _ := CheckStatus(id, now);
      }
    }

    /** What other users of the gate do, one call after another. */
    method PerformAll(ops: seq<GateOp>)
      requires Valid() && FreshIds(View(), ops)
      modifies this, requests.Values
      ensures Valid() && fresh(requests.Values - old(requests.Values))
      ensures View() == After(old(View()), ops, |ops|)
    {
      ghost var g := View();
      for n := 0 to |ops|
        invariant Valid() && fresh(requests.Values - old(requests.Values))
        invariant View() == After(g, ops, n)
      {
        assert NewAt(g, ops, n);
        Perform(ops[n]);
      }
    }
  }

  // ---------------------------------------------------------------- what every call keeps

  ghost predicate RequestInv(r: Request) {
    && r.kind == KindFor(r.riskLevel)
    && (HighRisk(r.riskLevel) ==> r.timeout >= 600.0)
    && (r.resolvedAt.None? <==> r.status.Pending?)
    && (r.rejectedBy.Some? <==> r.status.Rejected?)
    && (r.status.AutoApproved? ==> r.approvedBy == ["dev-auto"])
    && (r.status.Approved? ==> |Distinct(r.approvedBy)| == if r.kind.Dual? then 2 else 1)
    && (r.status in {Pending, Rejected, TimedOut} ==> |Distinct(r.approvedBy)| <= if r.kind.Dual? then 1 else 0)
  }

  ghost predicate GateInv(g: Gate) {
    forall id :: id in g.requests ==> g.requests[id].id == id && RequestInv(g.requests[id])
  }

  lemma DistinctAppend(names: seq<string>, name: string)
    ensures Distinct(names + [name]) == Distinct(names) + {name}
    ensures |Distinct(names + [name])| == |Distinct(names)| + if name in names then 0 else 1
    ensures |Distinct(names)| == 0 <==> names == []
  {
    assert Distinct(names + [name]) == Distinct(names) + {name};
    assert names != [] ==> names[0] in Distinct(names);
  }

  lemma RequestStepKeepsInv(r: Request, op: GateOp)
    requires RequestInv(r) && !op.Create?
    ensures RequestInv(ApplyTo(r, op).0) && ApplyTo(r, op).0.id == r.id
  {
    if op.Approve? { DistinctAppend(r.approvedBy, op.approver); }
  }

  lemma StepKeepsInv(g: Gate, op: GateOp)
    requires GateInv(g)
    ensures GateInv(Apply(g, op).0) && Apply(g, op).0.autoApprove == g.autoApprove
  {
    DistinctAppend([], "dev-auto");
    if !op.Create? && op.id in g.requests { RequestStepKeepsInv(g.requests[op.id], op); }
  }

  /** In every run, every request keeps the approval rules of its risk level. */
  lemma {:induction false} RunKeepsInv(g: Gate, ops: seq<GateOp>, n: nat)
    requires GateInv(g) && n <= |ops|
    ensures GateInv(After(g, ops, n)) && After(g, ops, n).autoApprove == g.autoApprove
  {
    if n > 0 {
      RunKeepsInv(g, ops, n - 1);
      StepKeepsInv(After(g, ops, n - 1), ops[n - 1]);
    }
  }

  /** A call that is not a second creation under the same id. */
  ghost predicate Touches(g: Gate, op: GateOp, id: string) {
    id in g.requests && !(op.Create? && op.id == id)
  }

  /** The same request under the same terms, with the earlier approvals still on it. */
  ghost predicate SameTerms(r: Request, s: Request) {
    && s.id == r.id && s.sessionId == r.sessionId && s.operation == r.operation
    && s.riskLevel == r.riskLevel && s.kind == r.kind
    && s.createdAt == r.createdAt && s.timeout == r.timeout && r.approvedBy <= s.approvedBy
  }

  /** One call: what is resolved stays as it is, and the request's terms never change. */
  lemma StepKeepsRequest(g: Gate, op: GateOp, id: string)
    requires Touches(g, op, id)
    ensures id in Apply(g, op).0.requests
    ensures var r, s := g.requests[id], Apply(g, op).0.requests[id];
            (!r.status.Pending? ==> s == r) && SameTerms(r, s)
  {}

  lemma AfterTouches(g: Gate, ops: seq<GateOp>, n: nat, id: string)
    requires 0 < n <= |ops| && FreshIds(g, ops) && id in After(g, ops, n - 1).requests
    ensures Touches(After(g, ops, n - 1), ops[n - 1], id)
  {
    assert NewAt(g, ops, n - 1);
  }

  /** Once resolved, a request never changes again. */
  lemma {:induction false} ResolvedForever(g: Gate, ops: seq<GateOp>, n: nat, id: string)
    requires n <= |ops| && FreshIds(g, ops)
    requires id in g.requests && !g.requests[id].status.Pending?
    ensures id in After(g, ops, n).requests && After(g, ops, n).requests[id] == g.requests[id]
  {
    if n > 0 {
      ResolvedForever(g, ops, n - 1, id);
      AfterTouches(g, ops, n, id);
      StepKeepsRequest(After(g, ops, n - 1), ops[n - 1], id);
    }
  }

  /** An existing request keeps its terms, and approvals are only ever added. */
  lemma {:induction false} TermsForever(g: Gate, ops: seq<GateOp>, n: nat, id: string)
    requires n <= |ops| && FreshIds(g, ops) && id in g.requests
    ensures id in After(g, ops, n).requests && SameTerms(g.requests[id], After(g, ops, n).requests[id])
  {
    if n > 0 {
      TermsForever(g, ops, n - 1, id);
      AfterTouches(g, ops, n, id);
      StepKeepsRequest(After(g, ops, n - 1), ops[n - 1], id);
    }
  }

  // ---------------------------------------------------------------- what one call does, exactly

  /** A status check times out an open request past its deadline, and changes nothing else. */
  lemma CheckExactly(g: Gate, id: string, now: real)
    requires id in g.requests
    ensures var r, g' := g.requests[id], Apply(g, Check(id, now)).0;
            && g'.requests.Keys == g.requests.Keys
            && (forall k :: k in g.requests && k != id ==> g'.requests[k] == g.requests[k])
            && g'.requests[id] == if r.status == Pending && now - r.createdAt > r.timeout
                                  then r.(status := TimedOut, resolvedAt := Some(now)) else r
  {}

  /** An approval is refused on a resolved request, times an open one out past its deadline, and counts otherwise. */
  lemma ApproveExactly(g: Gate, id: string, approver: string, now: real)
    requires GateInv(g) && id in g.requests
    ensures var r, (g', error) := g.requests[id], Apply(g, Approve(id, approver, now));
            var s := g'.requests[id];
            && (r.status != Pending ==> s == r && error == Some(AlreadyResolved(r.status)))
            && (r.status == Pending && now - r.createdAt > r.timeout ==>
                  s == r.(status := TimedOut, resolvedAt := Some(now)) && error == Some(HasTimedOut))
            && (r.status == Pending && now - r.createdAt <= r.timeout ==>
                  error == None && s.approvedBy == r.approvedBy + [approver]
                  && if r.kind == Single || exists a :: a in r.approvedBy && a != approver
                     then s.status == Approved && s.resolvedAt == Some(now) else s.status == Pending && s.resolvedAt == None)
  {
    var r := g.requests[id];
    if r.kind.Dual? && r.status.Pending? && now - r.createdAt <= r.timeout { DualApprovedExactly(r, approver, now); }
  }

  /** A dual request in time is approved exactly when an earlier approval came from someone else. */
  lemma DualApprovedExactly(r: Request, approver: string, now: real)
    requires RequestInv(r) && r.kind.Dual? && r.status.Pending? && now - r.createdAt <= r.timeout
    ensures ApproveRequest(r, approver, now).0.status.Approved? <==> exists a :: a in r.approvedBy && a != approver
  {
    DistinctAppend(r.approvedBy, approver);
    if approver in r.approvedBy {
      OneDistinct(r.approvedBy, approver);
    } else if r.approvedBy != [] {
      assert r.approvedBy[0] != approver;
    }
  }

  lemma OneDistinct(names: seq<string>, name: string)
    requires name in names && |Distinct(names)| <= 1
    ensures forall a :: a in names ==> a == name
  {
    SubsetSize({name}, Distinct(names));
    assert forall a :: a in names ==> a in Distinct(names);
  }

  /** A rejection counts on every open request, even past its deadline, and on no other. */
  lemma RejectExactly(g: Gate, id: string, rejector: string, reason: string, now: real)
    requires id in g.requests
    ensures var r, (g', error) := g.requests[id], Apply(g, Reject(id, rejector, reason, now));
            if r.status == Pending then
              error == None && g'.requests[id]
                == r.(status := Rejected, rejectedBy := Some(rejector), rejectReason := Some(reason), resolvedAt := Some(now))
            else g'.requests[id] == r && error == Some(AlreadyResolved(r.status))
  {}

  // ---------------------------------------------------------------- the status, from the calls alone

  /** The last moment at which the request of a creating call can be approved. */
  function Deadline(op: GateOp): real
    requires op.Create?
  {
    op.now + if op.riskLevel in {"high", "critical"} && op.timeout < 600.0 then 600.0 else op.timeout
  }

  /** Somebody else asked for the same approval earlier. */
  ghost predicate IsSecond(ops: seq<GateOp>, c: nat, i: nat)
    requires i < |ops| && ops[i].Approve?
  {
    exists j :: c < j < i && ApprovedBy(ops[j], ops[i].id) && ops[j].approver != ops[i].approver
  }

  predicate ApprovedBy(op: GateOp, id: string) { op.Approve? && op.id == id }

  /** Call i, if the request created by call c is still open then, resolves it. */
  ghost predicate Resolves(ops: seq<GateOp>, c: nat, i: nat)
    requires c < |ops| && i < |ops| && ops[c].Create?
  {
    && c < i && ops[i].id == ops[c].id && !ops[i].Create?
    && (ops[i].Reject? || ops[i].now > Deadline(ops[c])
        || (ops[i].Approve? && (ops[c].riskLevel == "critical" ==> IsSecond(ops, c, i))))
  }

  function ResolvedAs(ops: seq<GateOp>, c: nat, i: nat): Status
    requires c < |ops| && i < |ops| && ops[c].Create?
  {
    if ops[i].Reject? then Rejected else if ops[i].now > Deadline(ops[c]) then TimedOut else Approved
  }

  ghost predicate OpenUntil(ops: seq<GateOp>, c: nat, n: nat)
    requires c < |ops| && n <= |ops| && ops[c].Create?
  {
    forall i :: c < i < n ==> !Resolves(ops, c, i)
  }

  /** The request after n calls is what those calls make of it. */
  ghost predicate ReadOff(ops: seq<GateOp>, c: nat, n: nat, r: Request)
    requires c < |ops| && n <= |ops| && ops[c].Create?
  {
    && (r.status == Pending <==> OpenUntil(ops, c, n))
    && (forall i :: c < i < n && OpenUntil(ops, c, i) && Resolves(ops, c, i) ==>
          r.status == ResolvedAs(ops, c, i) && r.resolvedAt == Some(ops[i].now))
  }

  ghost predicate Signed(ops: seq<GateOp>, c: nat, n: nat, id: string, a: string)
    requires n <= |ops|
  {
    exists j :: c < j < n && ApprovedBy(ops[j], id) && ops[j].approver == a
  }

  lemma SignedStep(ops: seq<GateOp>, c: nat, n: nat, id: string, a: string)
    requires c < n < |ops|
    ensures Signed(ops, c, n + 1, id, a) <==> Signed(ops, c, n, id, a) || (ApprovedBy(ops[n], id) && ops[n].approver == a)
  {}

  /** The terms of the creating call, and on an open request exactly the approvers so far. */
  ghost predicate AsAsked(ops: seq<GateOp>, c: nat, n: nat, r: Request)
    requires c < |ops| && n <= |ops| && ops[c].Create?
  {
    var op := ops[c];
    && r.id == op.id && r.sessionId == op.sessionId && r.operation == op.operation && r.riskLevel == op.riskLevel
    && r.createdAt == op.now && r.createdAt + r.timeout == Deadline(op)
    && (r.kind == Dual <==> op.riskLevel == "critical")
    && (r.status == Pending ==> forall a :: a in r.approvedBy <==> Signed(ops, c, n, op.id, a))
  }

  lemma ReadOffStep(ops: seq<GateOp>, c: nat, n: nat, r: Request, s: Request)
    requires c < n < |ops| && ops[c].Create? && RequestInv(r) && ReadOff(ops, c, n, r) && AsAsked(ops, c, n, r)
    requires s == if ops[n].id == ops[c].id && !ops[n].Create? then ApplyTo(r, ops[n]).0 else r
    requires ops[n].Create? ==> ops[n].id != ops[c].id
    ensures ReadOff(ops, c, n + 1, s) && AsAsked(ops, c, n + 1, s)
  {
    var op := ops[n];
    forall a ensures Signed(ops, c, n + 1, ops[c].id, a)
                     <==> Signed(ops, c, n, ops[c].id, a) || (ApprovedBy(op, ops[c].id) && op.approver == a) {
      SignedStep(ops, c, n, ops[c].id, a);
    }
    assert OpenUntil(ops, c, n + 1) <==> OpenUntil(ops, c, n) && !Resolves(ops, c, n);
    if r.status == Pending && ApprovedBy(op, ops[c].id) {
      assert IsSecond(ops, c, n) <==> exists a :: a in r.approvedBy && a != op.approver by {
        SecondSigned(ops, c, n);
      }
      if r.kind.Dual? && op.now - r.createdAt <= r.timeout { DualApprovedExactly(r, op.approver, op.now); }
    }
  }

  lemma SecondSigned(ops: seq<GateOp>, c: nat, n: nat)
    requires c < n < |ops| && ops[n].Approve?
    ensures IsSecond(ops, c, n) <==> exists a :: Signed(ops, c, n, ops[n].id, a) && a != ops[n].approver
  {
    if IsSecond(ops, c, n) {
      var j :| c < j < n && ApprovedBy(ops[j], ops[n].id) && ops[j].approver != ops[n].approver;
      assert Signed(ops, c, n, ops[n].id, ops[j].approver);
    }
  }

  ghost predicate FromCalls(ops: seq<GateOp>, c: nat, n: nat, g: Gate)
    requires c < |ops| && n <= |ops| && ops[c].Create?
  {
    var id := ops[c].id;
    id in g.requests && ReadOff(ops, c, n, g.requests[id]) && AsAsked(ops, c, n, g.requests[id])
  }

  lemma JustCreated(g: Gate, ops: seq<GateOp>, c: nat)
    requires !g.autoApprove && c < |ops| && ops[c].Create?
    ensures FromCalls(ops, c, c + 1, Apply(g, ops[c]).0)
  {}

  lemma CallStep(g: Gate, ops: seq<GateOp>, c: nat, n: nat)
    requires GateInv(g) && c < n < |ops| && ops[c].Create? && FromCalls(ops, c, n, g)
    requires ops[n].Create? ==> ops[n].id !in g.requests
    ensures FromCalls(ops, c, n + 1, Apply(g, ops[n]).0)
  {
    var id, op := ops[c].id, ops[n];
    ReadOffStep(ops, c, n, g.requests[id], if op.id == id && !op.Create? then ApplyTo(g.requests[id], op).0 else g.requests[id]);
  }

  lemma {:induction false} RequestFromCalls(g: Gate, ops: seq<GateOp>, c: nat, n: nat)
    requires GateInv(g) && !g.autoApprove && FreshIds(g, ops) && c < n <= |ops| && ops[c].Create?
    ensures FromCalls(ops, c, n, After(g, ops, n))
  {
    var m := n - 1;
    RunKeepsInv(g, ops, m);
    if m == c {
      JustCreated(After(g, ops, m), ops, c);
    } else {
      RequestFromCalls(g, ops, c, m);
      assert NewAt(g, ops, m);
      CallStep(After(g, ops, m), ops, c, m);
    }
  }

  /**
   In every run with manual approval, a request's status is read off the calls: it is open exactly
   while no call has resolved it, and the first that does decides: a rejection rejects, any other
   call past the deadline times it out, an approval in time approves; for a critical request that
   takes an earlier approval by somebody else. Its terms are those of the call that created it.
   */
  lemma StatusIsReadOffTheCalls(g: Gate, ops: seq<GateOp>, c: nat, n: nat)
    requires GateInv(g) && !g.autoApprove && FreshIds(g, ops) && c < n <= |ops| && ops[c].Create?
    ensures var id, g' := ops[c].id, After(g, ops, n);
            id in g'.requests && ReadOff(ops, c, n, g'.requests[id]) && AsAsked(ops, c, n, g'.requests[id])
  {
    RequestFromCalls(g, ops, c, n);
  }

  /** In development mode a request is approved when created, and stays so. */
  lemma AutoApprovedForever(g: Gate, ops: seq<GateOp>, c: nat, n: nat)
    requires GateInv(g) && g.autoApprove && FreshIds(g, ops) && c < n <= |ops| && ops[c].Create?
    ensures var id, r := ops[c].id, Lookup(After(g, ops, n), ops[c].id);
            r.Some? && r.value.status == AutoApproved && r.value.approvedBy == ["dev-auto"] && r.value.resolvedAt == Some(ops[c].now)
  {
    RunKeepsInv(g, ops, c);
    if n > c + 1 {
      AutoApprovedForever(g, ops, c, n - 1);
      AfterTouches(g, ops, n, ops[c].id);
      StepKeepsRequest(After(g, ops, n - 1), ops[n - 1], ops[c].id);
    }
  }

  function Lookup(g: Gate, id: string): Option<Request> { if id in g.requests then Some(g.requests[id]) else None }

  // ---------------------------------------------------------------- approvals and deadlines over runs

  /** An approval was made in time: some call approved this id, by this person, before the deadline. */
  ghost predicate WasApprovedInTime(ops: seq<GateOp>, n: nat, r: Request, who: string)
    requires n <= |ops|
  {
    exists i :: 0 <= i < n && ops[i].Approve? && ops[i].id == r.id && ops[i].approver == who
                && ops[i].now - r.createdAt <= r.timeout
  }

  /** One call: a new name on a request is its approver's, in time, or the automatic one. */
  lemma StepRecordsApproval(g: Gate, op: GateOp, id: string, who: string)
    requires GateInv(g) && id in Apply(g, op).0.requests && who in Apply(g, op).0.requests[id].approvedBy
    ensures var r := Apply(g, op).0.requests[id];
            || r.status.AutoApproved?
            || (op.Approve? && op.id == id == r.id && op.approver == who && op.now - r.createdAt <= r.timeout)
            || (Touches(g, op, id) && who in g.requests[id].approvedBy)
  {}

  /** Starting from an empty gate, every recorded approver approved that request before its deadline. */
  lemma {:induction false} ApprovalsWereMade(g: Gate, ops: seq<GateOp>, n: nat, id: string, who: string)
    requires g.requests == map[] && n <= |ops|
    requires id in After(g, ops, n).requests && who in After(g, ops, n).requests[id].approvedBy
    ensures var r := After(g, ops, n).requests[id];
            r.status.AutoApproved? || WasApprovedInTime(ops, n, r, who)
  {
    assert n > 0;
    var before, op := After(g, ops, n - 1), ops[n - 1];
    RunKeepsInv(g, ops, n - 1);
    StepRecordsApproval(before, op, id, who);
    if Touches(before, op, id) {
      StepKeepsRequest(before, op, id);
      if who in before.requests[id].approvedBy { ApprovalsWereMade(g, ops, n - 1, id, who); }
    }
  }

  /** Not approved, and past its deadline at time t. */
  ghost predicate Late(r: Request, t: real) {
    !r.status.Approved? && !r.status.AutoApproved? && t - r.createdAt > r.timeout
  }

  lemma StepAfterDeadline(g: Gate, op: GateOp, id: string, r: Request, t: real)
    requires Touches(g, op, id) && op.now >= t && StillLate(r, g.requests[id], t)
    ensures id in Apply(g, op).0.requests && StillLate(r, Apply(g, op).0.requests[id], t)
  {}

  ghost predicate StillLate(r: Request, s: Request, t: real) { Late(s, t) && s.approvedBy == r.approvedBy }

  ghost predicate AllFrom(ops: seq<GateOp>, t: real) { forall i :: 0 <= i < |ops| ==> ops[i].now >= t }

  /** The deadline is final: not approved past it, a request collects no approval from any later call. */
  lemma {:induction false} ExpiredNeverApproved(g: Gate, ops: seq<GateOp>, n: nat, id: string, t: real)
    requires n <= |ops| && FreshIds(g, ops) && AllFrom(ops, t)
    requires id in g.requests && Late(g.requests[id], t)
    ensures id in After(g, ops, n).requests && StillLate(g.requests[id], After(g, ops, n).requests[id], t)
  {
    if n > 0 {
      ExpiredNeverApproved(g, ops, n - 1, id, t);
      AfterTouches(g, ops, n, id);
      StepAfterDeadline(After(g, ops, n - 1), ops[n - 1], id, g.requests[id], t);
    }
  }
}
