/** The approval gate every write tool passes: the three-valued decision an
    approval backend returns, the request it decides on, and the backend that
    approves everything and leaves one warning-level audit record per request.
    The logger is modelled by the records it receives. */
module Approvals {
  import opened Common

  /** The decision an approval workflow returns. */
  datatype ApprovalDecision = Approved | Denied | Expired

  /** The string value of each decision. */
  function DecisionValue(d: ApprovalDecision): (v: string)
    ensures v in {"approved", "denied", "expired"}
  {
    match d
    case Approved => "approved"
    case Denied => "denied"
    case Expired => "expired"
  }

  /** The decision with a given value, as the enumeration's lookup by value
      finds it; any other string names no decision. */
  function ParseDecision(v: string): (r: Option<ApprovalDecision>)
    ensures r.Some? <==> v in {"approved", "denied", "expired"}
  {
    if v == "approved" then Some(Approved)
    else if v == "denied" then Some(Denied)
    else if v == "expired" then Some(Expired)
    else None
  }

  /** A decision and its value determine each other: exactly three values
      exist, and reading a value back gives the decision it came from. */
  lemma DecisionValueRoundTrip(d: ApprovalDecision, v: string)
    ensures ParseDecision(DecisionValue(d)) == Some(d)
    ensures ParseDecision(v).Some? ==> DecisionValue(ParseDecision(v).value) == v
    ensures d == Approved || d == Denied || d == Expired
  {
  }

  /** A write tool invocation awaiting approval. */
  datatype ApprovalRequest = ApprovalRequest(
    id: string,
    toolName: string,
    requestId: string,
    clientId: Option<string>,
    arguments: map<string, string>)

  /** One log record of the gate: its level and the request's details. */
  datatype AuditRecord = AuditRecord(
    level: string,
    toolName: string,
    approvalId: string,
    clientId: string,
    requestId: string,
    arguments: map<string, string>)

  /** `client_id or "<unknown>"`. */
  function ClientLabel(clientId: Option<string>): (name: string)
    ensures clientId.Some? && clientId.value != "" ==> name == clientId.value
    ensures clientId.None? || clientId.value == "" ==> name == "<unknown>"
    ensures name != ""
  {
    if clientId.Some? && clientId.value != "" then clientId.value else "<unknown>"
  }

  /** The audit record of an auto-approved request. */
  function AutoApprovalRecord(req: ApprovalRequest): AuditRecord {
    AuditRecord("WARNING", req.toolName, req.id, ClientLabel(req.clientId), req.requestId, req.arguments)
  }

  /** The outcome of one call of a gate: its decision and what it logged. */
  datatype Decided = Decided(decision: ApprovalDecision, log: seq<AuditRecord>)

  /** `NoOpApprovalManager.require`: approves, after exactly one
      warning-level record naming the tool, the approval id, the client (or
      `<unknown>`), the request id and the arguments. */
  function NoOpRequire(req: ApprovalRequest): (r: Decided)
    ensures r.decision == Approved
    ensures |r.log| == 1
    ensures r.log[0].level == "WARNING"
    ensures r.log[0].toolName == req.toolName && r.log[0].approvalId == req.id
    ensures r.log[0].requestId == req.requestId && r.log[0].arguments == req.arguments
    ensures r.log[0].clientId == ClientLabel(req.clientId)
  {
    Decided(Approved, [AutoApprovalRecord(req)])
  }

  /** What a gate is asked to do: start, stop, or decide on a request. */
  datatype Call = Start | Stop | Require(request: ApprovalRequest)

  /** The decisions and the log of the auto-approving gate over a series of
      calls; the default `start` and `stop` do nothing. */
  datatype GateRun = GateRun(decisions: seq<ApprovalDecision>, log: seq<AuditRecord>)

  function RunNoOp(calls: seq<Call>): GateRun
  {
    if calls == [] then GateRun([], [])
    else
      var rest := RunNoOp(calls[1..]);
      match calls[0]
      case Require(req) =>
        var d := NoOpRequire(req);
        GateRun([d.decision] + rest.decisions, d.log + rest.log)
      case _ => rest
  }

  /** The requests among some calls, in order. */
  function Requests(calls: seq<Call>): seq<ApprovalRequest>
  {
    if calls == [] then []
    else if calls[0].Require? then [calls[0].request] + Requests(calls[1..])
    else Requests(calls[1..])
  }

  /** Over any series of calls the auto-approving gate approves every request
      and leaves exactly one record per request, in request order. */
  lemma {:induction false} NoOpAuditsEveryRequest(calls: seq<Call>)
    ensures |RunNoOp(calls).decisions| == |Requests(calls)|
    ensures forall i :: 0 <= i < |RunNoOp(calls).decisions| ==> RunNoOp(calls).decisions[i] == Approved
    ensures |RunNoOp(calls).log| == |Requests(calls)|
    ensures forall i :: 0 <= i < |Requests(calls)| ==> RunNoOp(calls).log[i] == AutoApprovalRecord(Requests(calls)[i])
  {
    if calls != [] {
      NoOpAuditsEveryRequest(calls[1..]);
      if calls[0].Require? {
        var rest := RunNoOp(calls[1..]);
        var reqs := Requests(calls[1..]);
        assert Requests(calls) == [calls[0].request] + reqs;
        assert RunNoOp(calls).log == [AutoApprovalRecord(calls[0].request)] + rest.log;
        forall i | 0 <= i < |Requests(calls)|
          ensures RunNoOp(calls).log[i] == AutoApprovalRecord(Requests(calls)[i])
        {
          if i > 0 {
            assert RunNoOp(calls).log[i] == rest.log[i - 1];
          }
        }
      }
    }
  }

  /** Starting and stopping the gate, without ever asking it, logs nothing
      and decides nothing; calls around them are unaffected. */
  lemma {:induction false} LifecycleIsInert(before: seq<Call>, after: seq<Call>)
    ensures RunNoOp(before + [Start, Stop] + after) == RunNoOp(before + after)
  {
    if before == [] {
      var calls := before + [Start, Stop] + after;
      assert calls[0] == Start && calls[1..][0] == Stop && calls[1..][1..] == after;
      assert RunNoOp(calls) == RunNoOp(calls[1..]) == RunNoOp(calls[1..][1..]);
      assert before + after == after;
    } else {
      LifecycleIsInert(before[1..], after);
      assert (before + [Start, Stop] + after)[1..] == before[1..] + [Start, Stop] + after;
      assert (before + after)[1..] == before[1..] + after;
    }
  }
}
