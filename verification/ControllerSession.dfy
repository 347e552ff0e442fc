/** The controller's side of one connection: `AgentSession` issues, extends and revokes
    leases. The clock, fresh lease ids, the stored approval and the credential batch are
    inputs; `open` says whether the peer still holds its end of the transport. */
module ControllerSession {
  import opened Wrappers
  import opened Control

  datatype SessionError = TransportClosed | NotRegistered | BadEnvelope

  datatype Session = Session(
    cmdSeq: nat, agentId: Option<string>, lease: Option<Lease>, approval: Approval,
    sent: seq<Envelope>)

  /** A handler's outcome: the session after it, and the error it returned. */
  datatype Reply = Reply(session: Session, error: Option<SessionError>)

  /** What registration learns from outside: version compatibility, the approval store's
      answer (`None` without a store), and whether the agent sent a key. */
  datatype Admission = Admission(versionOk: bool, stored: Option<Approval>, hasKey: bool) {
    predicate Refused() { !versionOk || (stored.Some? && !hasKey) }

    function Answer(): Approval { if stored.Some? then stored.value else Accepted }
  }

  const NEW_SESSION := Session(0, None, None, Accepted, [])

  function PushCommand(s: Session, c: Command, open: bool): Reply {
    var seqNo := Next(s.cmdSeq);
    if open then Reply(s.(cmdSeq := seqNo, sent := s.sent + [Envelope(seqNo, c)]), None)
    else Reply(s.(cmdSeq := seqNo), Some(TransportClosed))
  }

  function PushCredentials(s: Session, creds: seq<string>, open: bool): Reply
    decreases creds
  {
    if creds == [] then Reply(s, None)
    else
      var r := PushCommand(s, PushCredential(creds[0]), open);
      if r.error.Some? then r else PushCredentials(r.session, creds[1..], open)
  }

  function IssuedLease(s: Session, p: Policy, now: int, id: int): Lease {
    Lease(id, if s.agentId.Some? then s.agentId.value else "", now, now + p.leaseTtl, Next(s.cmdSeq))
  }

  function IssueInitial(s: Session, p: Policy, now: int, id: int, creds: seq<string>, open: bool): Reply {
    var lease := IssuedLease(s, p, now, id);
    var r := PushCommand(s.(lease := Some(lease)), LeaseGrant(lease), open);
    if r.error.Some? then r else PushCredentials(r.session, creds, open)
  }

  function OnRegister(s: Session, agentId: string, version: nat, a: Admission, p: Policy, now: int,
                      id: int, creds: seq<string>, open: bool): Reply {
    if version != PROTOCOL_VERSION || a.Refused() then Reply(s, Some(BadEnvelope))
    else
      var t := s.(approval := a.Answer(), agentId := Some(agentId));
      if !t.approval.Accepted? then Reply(t, None) else IssueInitial(t, p, now, id, creds, open)
  }

  function OnLifecycle(s: Session, ev: Lifecycle, p: Policy, now: int, id: int, creds: seq<string>,
                       open: bool): Reply {
    match ev
    case ApprovalGranted =>
      if s.approval.Accepted? then Reply(s, None)
      else IssueInitial(s.(approval := Accepted), p, now, id, creds, open)
    case ApprovalRevoked(reason) =>
      if s.approval.RevokedByOperator? then Reply(s, None)
      else PushCommand(s.(approval := RevokedByOperator, lease := None), LeaseRevoke(reason), open)
  }

  predicate RateLimited(l: Lease, p: Policy, now: int) {
    (if now - l.issuedAt > 0 then now - l.issuedAt else 0) < p.minRefreshInterval
  }

  function OnRefreshRequest(s: Session, leaseId: int, p: Policy, now: int, open: bool): Reply {
    if !s.approval.Accepted? then PushCommand(s, LeaseRevoke("approval revoked"), open)
    else if s.lease.None? then Reply(s, Some(NotRegistered))
    else if s.lease.value.id != leaseId then Reply(s, Some(BadEnvelope))
    else if RateLimited(s.lease.value, p, now) then Reply(s, None)
    else
      var lease := IssuedLease(s, p, now, leaseId);
      PushCommand(s.(lease := Some(lease)), LeaseRefresh(lease), open)
  }

  function OnTelemetry(s: Session, t: Telemetry, a: Admission, p: Policy, now: int, id: int,
                       creds: seq<string>, open: bool): Reply {
    match t
    case Register(agentId, version) => OnRegister(s, agentId, version, a, p, now, id, creds, open)
    case LeaseRefreshRequest(leaseId) => OnRefreshRequest(s, leaseId, p, now, open)
    case _ => Reply(s, None)
  }

  class AgentSession {
    const policy: Policy
    var cmdSeq: nat
    var agentId: Option<string>
    var currentLease: Option<Lease>
    var approvalState: Approval
    var transport: seq<Envelope>

    function State(): Session
      reads this
    {
      Session(cmdSeq, agentId, currentLease, approvalState, transport)
    }

    constructor (policy: Policy)
      ensures State() == NEW_SESSION && this.policy == policy
    {
      this.policy := policy;
      cmdSeq, agentId, currentLease, approvalState, transport := 0, None, None, Accepted, [];
    }

    method Push(c: Command, open: bool) returns (error: Option<SessionError>)
      modifies this
      ensures Reply(State(), error) == PushCommand(old(State()), c, open)
    {
      cmdSeq := Next(cmdSeq);
      if !open { return Some(TransportClosed); }
      transport := transport + [Envelope(cmdSeq, c)];
      return None;
    }

    method IssueInitialLeaseAndCredentials(now: int, id: int, creds: seq<string>, open: bool)
      returns (error: Option<SessionError>)
      modifies this
      ensures Reply(State(), error) == IssueInitial(old(State()), policy, now, id, creds, open)
    {
      var lease := IssuedLease(State(), policy, now, id);
      currentLease := Some(lease);
      error := Push(LeaseGrant(lease), open);
      if error.Some? { return; }
      ghost var granted := State();
      var i := 0;
      while i < |creds|
        invariant 0 <= i <= |creds| && error.None?
        invariant PushCredentials(granted, creds, open) == PushCredentials(State(), creds[i..], open)
      {
        assert creds[i..][0] == creds[i] && creds[i..][1..] == creds[i + 1..];
        error := Push(PushCredential(creds[i]), open);
        if error.Some? { return; }
        i := i + 1;
      }
    }

    method Registered(id: string, version: nat, a: Admission, now: int, leaseId: int,
                      creds: seq<string>, open: bool)
      returns (error: Option<SessionError>)
      modifies this
      ensures Reply(State(), error) == OnRegister(old(State()), id, version, a, policy, now, leaseId, creds, open)
    {
      if version != PROTOCOL_VERSION { return Some(BadEnvelope); }
      if !a.versionOk { return Some(BadEnvelope); }
      var approval := Accepted;
      if a.stored.Some? {
        if !a.hasKey { return Some(BadEnvelope); }
        approval := a.stored.value;
      }
      approvalState := approval;
      agentId := Some(id);
      if !approval.Accepted? { return None; }
      error := IssueInitialLeaseAndCredentials(now, leaseId, creds, open);
    }

    method Operator(ev: Lifecycle, now: int, leaseId: int, creds: seq<string>, open: bool)
      returns (error: Option<SessionError>)
      modifies this
      ensures Reply(State(), error) == OnLifecycle(old(State()), ev, policy, now, leaseId, creds, open)
    {
      match ev {
        case ApprovalGranted =>
          if approvalState == Accepted { return None; }
          approvalState := Accepted;
          error := IssueInitialLeaseAndCredentials(now, leaseId, creds, open);
        case ApprovalRevoked(reason) =>
          if approvalState == RevokedByOperator { return None; }
          approvalState := RevokedByOperator;
          currentLease := None;
          error := Push(LeaseRevoke(reason), open);
      }
    }

    method RefreshRequested(leaseId: int, now: int, open: bool) returns (error: Option<SessionError>)
      modifies this
      ensures Reply(State(), error) == OnRefreshRequest(old(State()), leaseId, policy, now, open)
    {
      if approvalState != Accepted {
        error := Push(LeaseRevoke("approval revoked"), open);
        return;
      }
      if currentLease.None? { return Some(NotRegistered); }
      var current := currentLease.value;
      if current.id != leaseId { return Some(BadEnvelope); }
      if RateLimited(current, policy, now) { return None; }
      var refreshed := IssuedLease(State(), policy, now, current.id);
      currentLease := Some(refreshed);
      error := Push(LeaseRefresh(refreshed), open);
    }

    method Received(t: Telemetry, a: Admission, now: int, leaseId: int, creds: seq<string>, open: bool)
      returns (error: Option<SessionError>)
      modifies this
      ensures Reply(State(), error) == OnTelemetry(old(State()), t, a, policy, now, leaseId, creds, open)
    {
      match t {
        case Register(id, version) => error := Registered(id, version, a, now, leaseId, creds, open);
        case LeaseRefreshRequest(id) => error := RefreshRequested(id, now, open);
        case _ => error := None;
      }
    }
  }
}
