/** The agent's side of one connection: `LeaseClient` registers, installs leases, asks for
    refreshes, and drops authority. Deployment snapshots and other replies are inputs;
    `open` says whether the controller still holds its end of the transport. */
module LeaseAgent {
  import opened Wrappers
  import opened Control

  datatype AgentError = Transport | AuthorityLost

  /** `asked` is history: the `issuedSeq` of every lease a refresh was requested for. */
  datatype Agent = Agent(
    cursor: nat, lease: Option<Lease>, state: LeaseState, requestedFor: Option<nat>,
    sent: seq<Telemetry>, asked: seq<nat>)

  datatype Outcome = Outcome(agent: Agent, error: Option<AgentError>)

  function Truncated(x: real): int { if x >= 0.0 then x.Floor else -((-x).Floor) }

  const MS: int := 1_000_000

  /** The f32 product of a number of milliseconds and the configured refresh fraction,
      rounding included. */
  type Scaling = int -> real

  /** Nanoseconds after issue at which a lease of this length is due for refresh: whole
      milliseconds, truncated, with at least one millisecond of lifetime. */
  function RefreshOffset(lifetime: int, scale: Scaling): int {
    var totalMs := if lifetime >= MS then lifetime / MS else 1;
    Truncated(scale(totalMs)) * MS
  }

  function RefreshDeadline(l: Lease, scale: Scaling): int {
    l.issuedAt + RefreshOffset(l.expiresAt - l.issuedAt, scale)
  }

  function IssuedSeq(o: Option<Lease>): Option<nat> {
    if o.Some? then Some(o.value.issuedSeq) else None
  }

  function SendTelemetry(a: Agent, t: Telemetry, open: bool): Outcome {
    var moved := a.(cursor := Advanced(a.cursor, Next(a.cursor)));
    if open then Outcome(moved.(sent := a.sent + [t]), None) else Outcome(moved, Some(Transport))
  }

  function NewAgent(): Agent { Agent(0, None, Unclaimed, None, [], []) }

  function Expire(a: Agent): Agent {
    if a.lease.Some? then a.(state := Expired(a.lease.value)) else a
  }

  /** The check at the top of every loop turn. */
  function CheckExpiry(a: Agent, now: int): Outcome {
    if a.lease.Some? && !a.lease.value.ValidAt(now) then Outcome(Expire(a), Some(AuthorityLost))
    else Outcome(a, None)
  }

  predicate RefreshDue(a: Agent, scale: Scaling, now: int) {
    && a.lease.Some? && now >= RefreshDeadline(a.lease.value, scale)
    && a.requestedFor != Some(a.lease.value.issuedSeq)
  }

  function RequestRefresh(a: Agent, open: bool): Outcome
    requires a.lease.Some?
  {
    var r := SendTelemetry(a, LeaseRefreshRequest(a.lease.value.id), open);
    if r.error.Some? then r
    else
      var s := a.lease.value.issuedSeq;
      Outcome(r.agent.(requestedFor := Some(s), asked := a.asked + [s]), None)
  }

  /** The receive timed out: perhaps a snapshot, and a refresh request when one is due. */
  function OnTimeout(a: Agent, snapshot: bool, scale: Scaling, now: int, open: bool): Outcome {
    var b := if snapshot then SendTelemetry(a, DeploymentState, open).agent else a;
    if RefreshDue(b, scale, now) then RequestRefresh(b, open) else Outcome(b, None)
  }

  function Installed(a: Agent, l: Lease): Agent { a.(lease := Some(l), state := Held(l)) }

  function RevokeLease(a: Agent, reason: string): Agent {
    if a.lease.Some? then a.(state := Revoked(a.lease.value, reason)) else a
  }

  function Acknowledged(a: Agent, seqNo: nat, open: bool): Outcome {
    var r := SendTelemetry(a, Ack(seqNo), open);
    if r.error.Some? then r else Outcome(r.agent.(cursor := Advanced(r.agent.cursor, seqNo)), None)
  }

  function OnCommand(a: Agent, e: Envelope, reply: Option<Telemetry>, open: bool): Outcome {
    match e.payload
    case LeaseGrant(l) => Acknowledged(Installed(a, l), e.seqNo, open)
    case LeaseRefresh(l) => Acknowledged(Installed(a, l), e.seqNo, open)
    case LeaseRevoke(reason) => Outcome(RevokeLease(a, reason), Some(AuthorityLost))
    case PushCredential(_) => Acknowledged(a, e.seqNo, open)
    case Heartbeat =>
      var r := SendTelemetry(a, AgentHeartbeat, open);
      if r.error.Some? then r else Acknowledged(r.agent, e.seqNo, open)
    case Deployment(_) =>
      var b := if reply.Some? then SendTelemetry(a, reply.value, open).agent else a;
      Acknowledged(b, e.seqNo, open)
  }

  /** A received command, then the in-flight marker cleared if the lease moved on. */
  function OnReceive(a: Agent, e: Envelope, reply: Option<Telemetry>, open: bool): Outcome {
    var r := OnCommand(a, e, reply, open);
    if r.error.None? && IssuedSeq(r.agent.lease) != IssuedSeq(a.lease)
    then Outcome(r.agent.(requestedFor := None), None) else r
  }

  function OnTransportClosed(a: Agent): Outcome {
    if a.lease.Some? then Outcome(Expire(a), Some(AuthorityLost)) else Outcome(a, None)
  }

  class LeaseClient {
    const scale: Scaling
    var cursor: nat
    var currentLease: Option<Lease>
    var authority: LeaseState
    var refreshRequestedFor: Option<nat>
    var transport: seq<Telemetry>
    ghost var asked: seq<nat>

    ghost function State(): Agent
      reads this
    {
      Agent(cursor, currentLease, authority, refreshRequestedFor, transport, asked)
    }

    constructor (scale: Scaling)
      ensures State() == NewAgent() && this.scale == scale
    {
      this.scale := scale;
      cursor, currentLease, authority := 0, None, Unclaimed;
      refreshRequestedFor, transport, asked := None, [], [];
    }

    method Send(t: Telemetry, open: bool) returns (error: Option<AgentError>)
      modifies this
      ensures Outcome(State(), error) == SendTelemetry(old(State()), t, open)
    {
      var seqNo := Next(cursor);
      if seqNo > cursor { cursor := seqNo; }
      if !open { return Some(Transport); }
      transport := transport + [t];
      return None;
    }

    method ExpireLease()
      modifies this
      ensures State() == Expire(old(State()))
    {
      if currentLease.Some? { authority := Expired(currentLease.value); }
    }

    method TopOfLoop(now: int) returns (error: Option<AgentError>)
      modifies this
      ensures Outcome(State(), error) == CheckExpiry(old(State()), now)
    {
      if currentLease.Some? && !currentLease.value.ValidAt(now) {
        ExpireLease();
        return Some(AuthorityLost);
      }
      return None;
    }

    method TimedOut(snapshot: bool, now: int, open: bool) returns (error: Option<AgentError>)
      modifies this
      ensures Outcome(State(), error) == OnTimeout(old(State()), snapshot, scale, now, open)
    {
      if snapshot { var _ := Send(DeploymentState, open); }
      if currentLease.Some? {
        var lease := currentLease.value;
        if now >= RefreshDeadline(lease, scale) && refreshRequestedFor != Some(lease.issuedSeq) {
          error := Send(LeaseRefreshRequest(lease.id), open);
          if error.Some? { return; }
          refreshRequestedFor := Some(lease.issuedSeq);
          asked := asked + [lease.issuedSeq];
        }
      }
      return None;
    }

    method Command(e: Envelope, reply: Option<Telemetry>, open: bool) returns (error: Option<AgentError>)
      modifies this
      ensures Outcome(State(), error) == OnCommand(old(State()), e, reply, open)
    {
      match e.payload {
        case LeaseGrant(l) => currentLease, authority := Some(l), Held(l);
        case LeaseRefresh(l) => currentLease, authority := Some(l), Held(l);
        case LeaseRevoke(reason) =>
          if currentLease.Some? { authority := Revoked(currentLease.value, reason); }
          return Some(AuthorityLost);
        case PushCredential(_) =>
        case Heartbeat =>
          error := Send(AgentHeartbeat, open);
          if error.Some? { return; }
        case Deployment(_) =>
          if reply.Some? { var _ := Send(reply.value, open); }
      }
      error := Send(Ack(e.seqNo), open);
      if error.Some? { return; }
      if e.seqNo > cursor { cursor := e.seqNo; }
    }

    method Receive(e: Envelope, reply: Option<Telemetry>, open: bool) returns (error: Option<AgentError>)
      modifies this
      ensures Outcome(State(), error) == OnReceive(old(State()), e, reply, open)
    {
      var before := IssuedSeq(currentLease);
      error := Command(e, reply, open);
      if error.Some? { return; }
      if IssuedSeq(currentLease) != before { refreshRequestedFor := None; }
    }

    method TransportClosed() returns (error: Option<AgentError>)
      modifies this
      ensures Outcome(State(), error) == OnTransportClosed(old(State()))
    {
      if currentLease.None? { return None; }
      ExpireLease();
      return Some(AuthorityLost);
    }
  }
}
