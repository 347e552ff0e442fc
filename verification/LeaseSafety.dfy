/** What every run of the lease protocol keeps: numbering and stamping of commands, the
    agent's lease as the last one delivered, and the end of authority after a revocation. */
module LeaseSafety {
  import opened Wrappers
  import opened Control
  import opened ControllerSession
  import opened LeaseAgent
  import opened LeaseProtocol

  /** Sequence number of the n-th command: the u64 counter saturates. */
  function Cap(n: nat): nat { if n < U64_MAX then n else U64_MAX }

  predicate Numbered(sent: seq<Envelope>) {
    forall k :: 0 <= k < |sent| ==> sent[k].seqNo == Cap(k + 1)
  }

  /** A lease command carries its own sequence number and the policy's lifetime. */
  predicate StampedBy(p: Policy, e: Envelope, now: int) {
    e.payload.IsLease() ==>
      && e.payload.lease.issuedSeq == e.seqNo
      && e.payload.lease.expiresAt == e.payload.lease.issuedAt + p.leaseTtl
      && e.payload.lease.issuedAt <= now
  }

  predicate Stamped(p: Policy, sent: seq<Envelope>, now: int) {
    forall k :: 0 <= k < |sent| ==> StampedBy(p, sent[k], now)
  }

  predicate IssuedInOrder(sent: seq<Envelope>) {
    forall i, j :: 0 <= i < j < |sent| && sent[i].payload.IsLease() && sent[j].payload.IsLease() ==>
      sent[i].payload.lease.issuedAt <= sent[j].payload.lease.issuedAt
  }

  /** The lease of the last lease command among the first n. */
  function LastLease(sent: seq<Envelope>, n: nat): Option<Lease>
    requires n <= |sent|
  {
    if n == 0 then None
    else if sent[n - 1].payload.IsLease() then Some(sent[n - 1].payload.lease)
    else LastLease(sent, n - 1)
  }

  predicate RevokedWithin(sent: seq<Envelope>, n: nat)
    requires n <= |sent|
  {
    exists k :: 0 <= k < n && sent[k].payload.LeaseRevoke?
  }

  predicate SessionInv(p: Policy, s: Session, live: bool, now: int) {
    && (live ==> s.cmdSeq == Cap(|s.sent|))
    && Numbered(s.sent) && Stamped(p, s.sent, now) && IssuedInOrder(s.sent)
  }

  predicate AgentInv(sent: seq<Envelope>, down: nat, a: Agent, live: bool) {
    && down <= |sent|
    && a.lease == LastLease(sent, down)
    && (a.lease.None? ==> a.state.Unclaimed?)
    && (a.state.Held? ==> a.lease == Some(a.state.lease))
    && (RevokedWithin(sent, down) ==> !live && !a.state.Held?)
  }

  /** The agent registers once, first; a session that has not seen it is untouched. */
  predicate Registration(w: World) {
    && 0 < |w.agent.sent| && w.up <= |w.agent.sent|
    && (forall k :: 0 <= k < |w.agent.sent| ==> (w.agent.sent[k].Register? <==> k == 0))
    && (w.up == 0 ==> w.session == NEW_SESSION)
  }

  predicate Inv(c: Config, w: World) {
    && SessionInv(c.policy, w.session, w.sessionLive, w.now)
    && AgentInv(w.session.sent, w.down, w.agent, w.agentLive)
    && Registration(w)
  }

  /** What one session handler may do to its log: append numbered commands, of which at
      most the first is a lease, then issued now by an approved session. */
  predicate Extends(p: Policy, s: Session, r: Reply, now: int) {
    && |s.sent| <= |r.session.sent| && s.sent == r.session.sent[..|s.sent|]
    && (r.error.None? ==> r.session.cmdSeq == Cap(|r.session.sent|))
    && (forall k :: |s.sent| <= k < |r.session.sent| ==> r.session.sent[k].seqNo == Cap(k + 1))
    && (forall k :: |s.sent| <= k < |r.session.sent| && r.session.sent[k].payload.IsLease() ==>
          && k == |s.sent| && r.session.approval.Accepted?
          && r.session.lease == Some(r.session.sent[k].payload.lease)
          && r.session.sent[k].payload.lease.issuedAt == now
          && StampedBy(p, r.session.sent[k], now))
  }

  lemma {:induction false} CredentialsExtend(s: Session, creds: seq<string>, open: bool)
    requires s.cmdSeq == Cap(|s.sent|)
    ensures var r := PushCredentials(s, creds, open);
      && |s.sent| <= |r.session.sent| && s.sent == r.session.sent[..|s.sent|]
      && (r.error.None? ==> r.session.cmdSeq == Cap(|r.session.sent|))
      && r.session == s.(cmdSeq := r.session.cmdSeq, sent := r.session.sent)
      && (forall k :: |s.sent| <= k < |r.session.sent| ==>
            r.session.sent[k].seqNo == Cap(k + 1) && r.session.sent[k].payload.PushCredential?)
      && (r.error.Some? <==> creds != [] && !open)
    decreases creds
  {
    if creds != [] && open {
      CredentialsExtend(PushCommand(s, PushCredential(creds[0]), open).session, creds[1..], open);
    }
  }

  lemma InitialExtends(s: Session, p: Policy, now: int, id: int, creds: seq<string>, open: bool)
    requires s.cmdSeq == Cap(|s.sent|) && s.approval.Accepted?
    ensures Extends(p, s, IssueInitial(s, p, now, id, creds, open), now)
  {
    var lease := IssuedLease(s, p, now, id);
    var r := PushCommand(s.(lease := Some(lease)), LeaseGrant(lease), open);
    if open { CredentialsExtend(r.session, creds, open); }
  }

  lemma HandlerExtends(c: Config, w: World, step: Step)
    requires step.SessionReceive? || step.SessionOperator? || step.SessionForward?
    requires Enabled(w, step) && w.session.cmdSeq == Cap(|w.session.sent|)
    ensures Extends(c.policy, w.session, SessionReply(c, w, step), w.now)
  {
    match step
    case SessionReceive(a, id, creds) =>
      var t := w.agent.sent[w.up];
      if t.Register? && t.protocolVersion == PROTOCOL_VERSION && !a.Refused() && a.Answer().Accepted? {
        InitialExtends(w.session.(approval := Accepted, agentId := Some(t.agentId)),
                       c.policy, w.now, id, creds, w.agentLive);
      }
    case SessionOperator(ev, id, creds) =>
      if ev.ApprovalGranted? && !w.session.approval.Accepted? {
        InitialExtends(w.session.(approval := Accepted), c.policy, w.now, id, creds, w.agentLive);
      }
    case SessionForward(_) =>
  }

  lemma {:induction false} LastLeaseOfPrefix(sent: seq<Envelope>, longer: seq<Envelope>, n: nat)
    requires n <= |sent| <= |longer| && sent == longer[..|sent|]
    ensures LastLease(sent, n) == LastLease(longer, n)
    ensures RevokedWithin(sent, n) <==> RevokedWithin(longer, n)
  {
    assert forall k :: 0 <= k < n ==> sent[k] == longer[k];
    if n > 0 { LastLeaseOfPrefix(sent, longer, n - 1); }
  }

  lemma LaterStamps(p: Policy, sent: seq<Envelope>, now: int, later: int)
    requires Stamped(p, sent, now) && now <= later
    ensures Stamped(p, sent, later)
  {
  }

  lemma ExtendingKeeps(p: Policy, s: Session, r: Reply, now: int)
    requires SessionInv(p, s, true, now) && Extends(p, s, r, now)
    ensures SessionInv(p, r.session, r.error.None?, now)
  {
    var sent := r.session.sent;
    assert forall k :: 0 <= k < |s.sent| ==> s.sent[k] == sent[k];
    forall i, j | 0 <= i < j < |sent| && sent[i].payload.IsLease() && sent[j].payload.IsLease()
      ensures sent[i].payload.lease.issuedAt <= sent[j].payload.lease.issuedAt
    {
      if j < |s.sent| {
        assert s.sent[i].payload.lease.issuedAt <= s.sent[j].payload.lease.issuedAt;
      } else {
        assert StampedBy(p, s.sent[i], now);
      }
    }
  }

  lemma SessionStepKeeps(c: Config, w: World, step: Step)
    requires Inv(c, w) && Enabled(w, step)
    requires step.SessionReceive? || step.SessionOperator? || step.SessionForward?
    ensures Inv(c, After(c, w, step))
  {
    HandlerExtends(c, w, step);
    var r := SessionReply(c, w, step);
    ExtendingKeeps(c.policy, w.session, r, w.now);
    LastLeaseOfPrefix(w.session.sent, r.session.sent, w.down);
  }

  predicate NoRegisterAdded(before: seq<Telemetry>, after: seq<Telemetry>) {
    && |before| <= |after| && before == after[..|before|]
    && (forall k :: |before| <= k < |after| ==> !after[k].Register?)
  }

  predicate PlainAdded(before: seq<Telemetry>, after: seq<Telemetry>) {
    && NoRegisterAdded(before, after)
    && (forall k :: |before| <= k < |after| ==> !after[k].LeaseRefreshRequest?)
  }

  lemma TimeoutEffect(a: Agent, snapshot: bool, scale: Scaling, now: int, open: bool)
    ensures var o := OnTimeout(a, snapshot, scale, now, open);
      o.agent.lease == a.lease && o.agent.state == a.state && NoRegisterAdded(a.sent, o.agent.sent)
  {
    var b := if snapshot then SendTelemetry(a, DeploymentState, open).agent else a;
    assert NoRegisterAdded(a.sent, b.sent);
  }

  lemma AckEffect(a: Agent, seqNo: nat, open: bool)
    ensures var o := Acknowledged(a, seqNo, open);
      && o.agent.lease == a.lease && o.agent.state == a.state && PlainAdded(a.sent, o.agent.sent)
      && o.agent.requestedFor == a.requestedFor && o.agent.asked == a.asked
  {
  }

  /** A plain message, then the acknowledgement. */
  lemma ReplyEffect(a: Agent, t: Telemetry, seqNo: nat, open: bool)
    requires !t.Register? && !t.LeaseRefreshRequest?
    ensures var r := SendTelemetry(a, t, open);
      && PlainAdded(a.sent, r.agent.sent) && PlainAdded(a.sent, Acknowledged(r.agent, seqNo, open).agent.sent)
  {
    var sent := Acknowledged(SendTelemetry(a, t, open).agent, seqNo, open).agent.sent;
    assert sent == a.sent + if open then [t] + [Ack(seqNo)] else [];
  }

  lemma CommandEffect(a: Agent, e: Envelope, reply: Option<Telemetry>, open: bool)
    requires PlainReply(reply)
    ensures var o := OnCommand(a, e, reply, open);
      && PlainAdded(a.sent, o.agent.sent)
      && o.agent.requestedFor == a.requestedFor && o.agent.asked == a.asked
      && (e.payload.IsLease() ==>
            o.agent.lease == Some(e.payload.lease) && o.agent.state == Held(e.payload.lease))
      && (!e.payload.IsLease() ==> o.agent.lease == a.lease)
      && (e.payload.LeaseRevoke? ==> o.error.Some? && o.agent == RevokeLease(a, e.payload.reason))
      && (!e.payload.IsAuthority() ==> o.agent.state == a.state)
  {
    match e.payload
    case LeaseGrant(l) => AckEffect(Installed(a, l), e.seqNo, open);
    case LeaseRefresh(l) => AckEffect(Installed(a, l), e.seqNo, open);
    case LeaseRevoke(_) =>
    case PushCredential(_) => AckEffect(a, e.seqNo, open);
    case Heartbeat =>
      var r := SendTelemetry(a, AgentHeartbeat, open);
      ReplyEffect(a, AgentHeartbeat, e.seqNo, open);
      AckEffect(r.agent, e.seqNo, open);
    case Deployment(_) =>
      var b := if reply.Some? then SendTelemetry(a, reply.value, open).agent else a;
      if reply.Some? { ReplyEffect(a, reply.value, e.seqNo, open); }
      AckEffect(b, e.seqNo, open);
  }

  lemma ReceiveKeeps(
      sent: seq<Envelope>, down: nat, a: Agent, reply: Option<Telemetry>, open: bool)
    requires down < |sent| && AgentInv(sent, down, a, true) && PlainReply(reply)
    ensures var o := OnReceive(a, sent[down], reply, open);
      AgentInv(sent, down + 1, o.agent, o.error.None?) && PlainAdded(a.sent, o.agent.sent)
  {
    CommandEffect(a, sent[down], reply, open);
    assert RevokedWithin(sent, down + 1) <==> RevokedWithin(sent, down) || sent[down].payload.LeaseRevoke?;
  }

  lemma AgentStepKeeps(c: Config, w: World, step: Step)
    requires Inv(c, w) && Enabled(w, step)
    requires step.AgentTop? || step.AgentTimeout? || step.AgentReceive?
    ensures Inv(c, After(c, w, step))
  {
    match step
    case AgentTop =>
    case AgentTimeout(snapshot) => TimeoutEffect(w.agent, snapshot, c.scale, w.now, w.sessionLive);
    case AgentReceive(reply) => ReceiveKeeps(w.session.sent, w.down, w.agent, reply, w.sessionLive);
  }

  lemma StepKeeps(c: Config, w: World, step: Step)
    requires Inv(c, w)
    ensures Inv(c, After(c, w, step))
  {
    if Enabled(w, step) {
      match step
      case Tick(elapsed) => LaterStamps(c.policy, w.session.sent, w.now, w.now + elapsed);
      case SessionStop =>
      case AgentHangup =>
      case AgentStop =>
      case AgentTop => AgentStepKeeps(c, w, step);
      case AgentTimeout(_) => AgentStepKeeps(c, w, step);
      case AgentReceive(_) => AgentStepKeeps(c, w, step);
      case SessionReceive(_, _, _) => SessionStepKeeps(c, w, step);
      case SessionOperator(_, _, _) => SessionStepKeeps(c, w, step);
      case SessionForward(_) => SessionStepKeeps(c, w, step);
    }
  }

  lemma {:induction false} RunKeeps(c: Config, w: World, steps: seq<Step>)
    requires Inv(c, w)
    ensures Inv(c, Run(c, w, steps))
    decreases steps
  {
    if steps != [] {
      StepKeeps(c, w, steps[0]);
      RunKeeps(c, After(c, w, steps[0]), steps[1..]);
    }
  }

  lemma StartHolds(c: Config, now: int, agentId: string, version: nat)
    ensures Inv(c, Start(now, agentId, version))
  {
  }

  lemma Reached(c: Config, now: int, agentId: string, version: nat, steps: seq<Step>)
    ensures Inv(c, Run(c, Start(now, agentId, version), steps))
  {
    StartHolds(c, now, agentId, version);
    RunKeeps(c, Start(now, agentId, version), steps);
  }

  /** Over every run, a step that sends a lease leaves the session approved, stamps the lease
      with its envelope's own number and the current time, and records it as current. */
  lemma LeasesNeedApproval(
      c: Config, now: int, agentId: string, version: nat, steps: seq<Step>, step: Step, k: nat)
    requires var w := Run(c, Start(now, agentId, version), steps);
      |w.session.sent| <= k < |After(c, w, step).session.sent|
      && After(c, w, step).session.sent[k].payload.IsLease()
    ensures var w := Run(c, Start(now, agentId, version), steps);
      var v := After(c, w, step);
      var e := v.session.sent[k];
      && v.session.approval.Accepted? && v.session.lease == Some(e.payload.lease)
      && e.payload.lease.issuedSeq == e.seqNo == Cap(k + 1)
      && e.payload.lease.issuedAt == w.now
      && e.payload.lease.expiresAt == w.now + c.policy.leaseTtl
  {
    var w := Run(c, Start(now, agentId, version), steps);
    Reached(c, now, agentId, version, steps);
    if step.SessionReceive? || step.SessionOperator? || step.SessionForward? {
      HandlerExtends(c, w, step);
    }
  }

  lemma {:induction false} LastLeaseFound(sent: seq<Envelope>, n: nat) returns (k: nat)
    requires n <= |sent| && LastLease(sent, n).Some?
    ensures k < n && sent[k].payload.IsLease() && LastLease(sent, n) == Some(sent[k].payload.lease)
    ensures forall i :: k < i < n ==> !sent[i].payload.IsLease()
  {
    if sent[n - 1].payload.IsLease() { k := n - 1; } else { k := LastLeaseFound(sent, n - 1); }
  }

  /** Over every run, the installed lease only moves forward: a step that changes it installs
      one numbered strictly above the old one, unless the old one already carries the largest
      number, and one that expires no earlier. */
  lemma InstalledLeasesAdvance(
      c: Config, now: int, agentId: string, version: nat, steps: seq<Step>, step: Step)
    requires var w := Run(c, Start(now, agentId, version), steps);
      w.agent.lease.Some? && After(c, w, step).agent.lease != w.agent.lease
    ensures var w := Run(c, Start(now, agentId, version), steps);
      var v := After(c, w, step);
      && v.agent.lease.Some?
      && w.agent.lease.value.issuedSeq <= v.agent.lease.value.issuedSeq
      && (w.agent.lease.value.issuedSeq < v.agent.lease.value.issuedSeq <==>
            w.agent.lease.value.issuedSeq < U64_MAX)
      && w.agent.lease.value.issuedAt <= v.agent.lease.value.issuedAt
      && w.agent.lease.value.expiresAt <= v.agent.lease.value.expiresAt
  {
    var w := Run(c, Start(now, agentId, version), steps);
    Reached(c, now, agentId, version, steps);
    if step.AgentTimeout? {
      TimeoutEffect(w.agent, step.snapshot, c.scale, w.now, w.sessionLive);
    } else if step.AgentReceive? {
      var sent := w.session.sent;
      CommandEffect(w.agent, sent[w.down], step.reply, w.sessionLive);
      var k := LastLeaseFound(sent, w.down);
      assert StampedBy(c.policy, sent[k], w.now) && StampedBy(c.policy, sent[w.down], w.now);
    }
  }

  /** Over every run, authority at any instant is backed by a delivered lease that was issued
      less than one lifetime before, and no revocation has been delivered. */
  lemma AuthorityIsBacked(
      c: Config, now: int, agentId: string, version: nat, steps: seq<Step>, t: int)
    returns (k: nat)
    requires Run(c, Start(now, agentId, version), steps).agent.state.AuthorisedAt(t)
    ensures var w := Run(c, Start(now, agentId, version), steps);
      && k < w.down <= |w.session.sent| && w.session.sent[k].payload.IsLease()
      && w.agent.state == Held(w.session.sent[k].payload.lease)
      && t < w.session.sent[k].payload.lease.issuedAt + c.policy.leaseTtl
      && (forall i :: k < i < w.down ==> !w.session.sent[i].payload.IsLease())
      && !RevokedWithin(w.session.sent, w.down)
  {
    var w := Run(c, Start(now, agentId, version), steps);
    Reached(c, now, agentId, version, steps);
    k := LastLeaseFound(w.session.sent, w.down);
  }

  predicate NoGrant(steps: seq<Step>) {
    forall k :: 0 <= k < |steps| ==>
      !(steps[k].SessionOperator? && steps[k].event.ApprovalGranted?)
  }

  predicate AllIssuedBy(sent: seq<Envelope>, t: int) {
    forall k :: 0 <= k < |sent| && sent[k].payload.IsLease() ==> sent[k].payload.lease.issuedAt <= t
  }

  /** A registered session without approval stays so, and sends no lease. */
  lemma UnapprovedStep(c: Config, w: World, step: Step, t: int)
    requires Inv(c, w) && w.up > 0 && !w.session.approval.Accepted? && AllIssuedBy(w.session.sent, t)
    requires NoGrant([step])
    ensures var v := After(c, w, step);
      v.up > 0 && !v.session.approval.Accepted? && AllIssuedBy(v.session.sent, t)
  {
    assert !([step][0].SessionOperator? && [step][0].event.ApprovalGranted?);
    if Enabled(w, step) && (step.SessionReceive? || step.SessionOperator? || step.SessionForward?) {
      HandlerExtends(c, w, step);
      var r := SessionReply(c, w, step);
      assert !r.session.approval.Accepted?;
      assert forall k :: 0 <= k < |w.session.sent| ==> w.session.sent[k] == r.session.sent[k];
    }
  }

  lemma {:induction false} UnapprovedRun(c: Config, w: World, steps: seq<Step>, t: int)
    requires Inv(c, w) && w.up > 0 && !w.session.approval.Accepted? && AllIssuedBy(w.session.sent, t)
    requires NoGrant(steps)
    ensures var v := Run(c, w, steps);
      Inv(c, v) && !v.session.approval.Accepted? && AllIssuedBy(v.session.sent, t)
    decreases steps
  {
    if steps != [] {
      assert NoGrant([steps[0]]) by { assert !(steps[0].SessionOperator? && steps[0].event.ApprovalGranted?); }
      UnapprovedStep(c, w, steps[0], t);
      StepKeeps(c, w, steps[0]);
      UnapprovedRun(c, After(c, w, steps[0]), steps[1..], t);
    }
  }

  /** The dead-man bound: from any reachable state in which a registered session is not
      approved, until the operator grants again, nobody is authorised from one lease
      lifetime later on, whatever is lost, delayed or crashes meanwhile. */
  lemma UnapprovedLosesAuthority(
      c: Config, now: int, agentId: string, version: nat, before: seq<Step>, after: seq<Step>, t: int)
    requires var w := Run(c, Start(now, agentId, version), before);
      && w.up > 0 && !w.session.approval.Accepted? && NoGrant(after)
      && t >= w.now + c.policy.leaseTtl
    ensures var w := Run(c, Start(now, agentId, version), before);
      !Run(c, w, after).agent.state.AuthorisedAt(t)
  {
    var w := Run(c, Start(now, agentId, version), before);
    Reached(c, now, agentId, version, before);
    assert AllIssuedBy(w.session.sent, w.now) by {
      assert forall k :: 0 <= k < |w.session.sent| ==> StampedBy(c.policy, w.session.sent[k], w.now);
    }
    UnapprovedRun(c, w, after, w.now);
    var v := Run(c, w, after);
    if v.agent.state.AuthorisedAt(t) {
      RunAppends(c, Start(now, agentId, version), before, after);
      var _ := AuthorityIsBacked(c, now, agentId, version, before + after, t);
    }
  }

  /** Consuming never runs backwards and logs only grow. */
  lemma {:induction false} LogsGrow(c: Config, w: World, steps: seq<Step>)
    requires Inv(c, w)
    ensures var v := Run(c, w, steps);
      && |w.session.sent| <= |v.session.sent| && w.session.sent == v.session.sent[..|w.session.sent|]
      && w.down <= v.down && w.up <= v.up && w.now <= v.now
    decreases steps
  {
    if steps != [] {
      var step := steps[0];
      if Enabled(w, step) && (step.SessionReceive? || step.SessionOperator? || step.SessionForward?) {
        HandlerExtends(c, w, step);
      }
      StepKeeps(c, w, step);
      LogsGrow(c, After(c, w, step), steps[1..]);
    }
  }

  /** What one operator revocation guarantees, whatever follows. The revocation enters the
      queue; once it is consumed the agent holds no authority at any time, even if the
      operator grants again; and without a further grant authority ends at T + ttl. */
  lemma RevocationEndsAuthority(
      c: Config, now: int, agentId: string, version: nat, before: seq<Step>, reason: string,
      id: int, creds: seq<string>, after: seq<Step>, t: int)
    requires var w := Run(c, Start(now, agentId, version), before);
      && w.sessionLive && w.agentLive && w.session.agentId.Some?
      && !w.session.approval.RevokedByOperator?
    ensures var w := Run(c, Start(now, agentId, version), before);
      var u := After(c, w, SessionOperator(ApprovalRevoked(reason), id, creds));
      var v := Run(c, u, after);
      && u.session.sent == w.session.sent + [Envelope(Cap(|w.session.sent| + 1), LeaseRevoke(reason))]
      && (v.down > |w.session.sent| ==> !v.agentLive && !v.agent.state.AuthorisedAt(t))
      && (NoGrant(after) && t >= w.now + c.policy.leaseTtl ==> !v.agent.state.AuthorisedAt(t))
  {
    var start := Start(now, agentId, version);
    var w := Run(c, start, before);
    var step := SessionOperator(ApprovalRevoked(reason), id, creds);
    var u := After(c, w, step);
    Reached(c, now, agentId, version, before);
    RunAppends(c, start, before, [step]);
    assert [step][1..] == [];
    assert Run(c, w, [step]) == u;
    Reached(c, now, agentId, version, before + [step]);
    RunKeeps(c, u, after);
    LogsGrow(c, u, after);
    var v := Run(c, u, after);
    if v.down > |w.session.sent| {
      assert v.session.sent[|w.session.sent|] == u.session.sent[|w.session.sent|];
      assert RevokedWithin(v.session.sent, v.down);
    }
    if NoGrant(after) && t >= w.now + c.policy.leaseTtl {
      UnapprovedLosesAuthority(c, now, agentId, version, before + [step], after, t);
    }
  }

  /** The bound is exact: for every lifetime there is a run whose revocation comes right
      after the grant and whose agent is still authorised until the very end. */
  lemma RevocationBoundIsTight(c: Config, now: int, agentId: string, t: int)
    returns (steps: seq<Step>)
    ensures NoGrant(steps)
    ensures var w := Run(c, Start(now, agentId, PROTOCOL_VERSION), steps);
      && w.now == now && w.session.approval.RevokedByOperator?
      && (w.agent.state.AuthorisedAt(t) <==> t < w.now + c.policy.leaseTtl)
  {
    var start := Start(now, agentId, PROTOCOL_VERSION);
    var register := SessionReceive(Admission(true, None, false), 1, []);
    var revoke := SessionOperator(ApprovalRevoked(""), 1, []);
    steps := [register, AgentTop, AgentReceive(None), revoke];
    var w1 := After(c, start, register);
    var w2 := After(c, w1, AgentTop);
    var w3 := After(c, w2, AgentReceive(None));
    var w4 := After(c, w3, revoke);
    assert steps[1..] == [AgentTop, AgentReceive(None), revoke];
    assert steps[1..][1..] == [AgentReceive(None), revoke];
    assert steps[1..][1..][1..] == [revoke] && steps[1..][1..][1..][1..] == [];
    assert Run(c, w3, [revoke]) == w4;
    assert Run(c, w2, [AgentReceive(None), revoke]) == w4;
    assert Run(c, start, steps) == w4;
  }
}
