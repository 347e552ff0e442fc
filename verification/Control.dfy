/** The vocabulary of the control plane: saturating sequence numbers, leases, authority
    states and the messages of both directions. Time is an integer count of nanoseconds. */
module Control {
  import opened Wrappers

  const U64_MAX: nat := 0xFFFF_FFFF_FFFF_FFFF

  /** `Seq::next`: saturating at the largest u64. */
  function Next(s: nat): nat { if s < U64_MAX then s + 1 else U64_MAX }

  /** `Cursor::advance`: forward only. */
  function Advanced(cursor: nat, to: nat): nat { if to > cursor then to else cursor }

  datatype Lease = Lease(id: int, agentId: string, issuedAt: int, expiresAt: int, issuedSeq: nat) {
    predicate ValidAt(now: int) { now < expiresAt }
  }

  datatype LeaseState =
    | Unclaimed
    | Held(lease: Lease)
    | Expired(lease: Lease)
    | Revoked(previous: Lease, reason: string)
  {
    predicate AuthorisedAt(now: int) { Held? && lease.ValidAt(now) }
  }

  datatype Command =
    | LeaseGrant(lease: Lease)
    | LeaseRefresh(lease: Lease)
    | LeaseRevoke(reason: string)
    | PushCredential(credential: string)
    | Heartbeat
    | Deployment(text: string)   // desired strategies, patches, detail fetches, clients
  {
    predicate IsLease() { LeaseGrant? || LeaseRefresh? }

    /** Touches authority: what the HTTP handlers never push. */
    predicate IsAuthority() { IsLease() || LeaseRevoke? }
  }

  datatype Envelope = Envelope(seqNo: nat, payload: Command)

  datatype Telemetry =
    | Register(agentId: string, protocolVersion: nat)
    | LeaseRefreshRequest(leaseId: int)
    | AgentHeartbeat
    | Ack(appliedSeq: nat)
    | DeploymentState
    | DetailsReply

  const PROTOCOL_VERSION: nat := 1

  datatype Approval = Pending | Accepted | Rejected | RevokedByOperator

  /** What an operator does to a live session. */
  datatype Lifecycle = ApprovalGranted | ApprovalRevoked(reason: string)

  datatype Policy = Policy(leaseTtl: nat, minRefreshInterval: nat)
}
