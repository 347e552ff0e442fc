/** The refresh loop: at most one message about the lease is in flight, every request names
    the current lease, and exactly which configurations never have a request rate-limited. */
module RefreshLoop {
  import opened Wrappers
  import opened Control
  import opened ControllerSession
  import opened LeaseAgent
  import opened LeaseProtocol
  import opened LeaseSafety

  function LeasesIn(sent: seq<Envelope>, n: nat): nat
    requires n <= |sent|
  {
    if n == 0 then 0 else LeasesIn(sent, n - 1) + if sent[n - 1].payload.IsLease() then 1 else 0
  }

  function RequestsIn(sent: seq<Telemetry>, n: nat): nat
    requires n <= |sent|
  {
    if n == 0 then 0 else RequestsIn(sent, n - 1) + if sent[n - 1].LeaseRefreshRequest? then 1 else 0
  }

  function LeasesInFlight(w: World): int
    requires w.down <= |w.session.sent|
  {
    LeasesIn(w.session.sent, |w.session.sent|) - LeasesIn(w.session.sent, w.down)
  }

  function RequestsInFlight(w: World): int
    requires w.up <= |w.agent.sent|
  {
    RequestsIn(w.agent.sent, |w.agent.sent|) - RequestsIn(w.agent.sent, w.up)
  }

  // ---- Counting ----

  lemma {:induction false} LeasesMonotone(sent: seq<Envelope>, m: nat, n: nat)
    requires m <= n <= |sent|
    ensures LeasesIn(sent, m) <= LeasesIn(sent, n)
    ensures LeasesIn(sent, m) == LeasesIn(sent, n) ==> LastLease(sent, m) == LastLease(sent, n)
    ensures LeasesIn(sent, n) == 0 <==> LastLease(sent, n).None?
  {
    if m < n { LeasesMonotone(sent, m, n - 1); }
    else if n > 0 { LeasesMonotone(sent, m - 1, n - 1); }
  }

  lemma LeaseAhead(sent: seq<Envelope>, m: nat, k: nat, n: nat)
    requires m <= k < n <= |sent| && sent[k].payload.IsLease()
    ensures LeasesIn(sent, m) < LeasesIn(sent, n)
  {
    LeasesMonotone(sent, m, k);
    LeasesMonotone(sent, k + 1, n);
  }

  lemma {:induction false} RequestsMonotone(sent: seq<Telemetry>, m: nat, n: nat)
    requires m <= n <= |sent|
    ensures RequestsIn(sent, m) <= RequestsIn(sent, n)
  {
    if m < n { RequestsMonotone(sent, m, n - 1); }
  }

  lemma RequestAhead(sent: seq<Telemetry>, m: nat, k: nat, n: nat)
    requires m <= k < n <= |sent| && sent[k].LeaseRefreshRequest?
    ensures RequestsIn(sent, m) < RequestsIn(sent, n)
  {
    RequestsMonotone(sent, m, k);
    RequestsMonotone(sent, k + 1, n);
  }

  lemma {:induction false} LeasesOfPrefix(sent: seq<Envelope>, longer: seq<Envelope>, n: nat)
    requires n <= |sent| <= |longer| && sent == longer[..|sent|]
    ensures LeasesIn(sent, n) == LeasesIn(longer, n)
  {
    if n > 0 {
      assert sent[n - 1] == longer[n - 1];
      LeasesOfPrefix(sent, longer, n - 1);
    }
  }

  lemma {:induction false} RequestsOfPrefix(sent: seq<Telemetry>, longer: seq<Telemetry>, n: nat)
    requires n <= |sent| <= |longer| && sent == longer[..|sent|]
    ensures RequestsIn(sent, n) == RequestsIn(longer, n)
  {
    if n > 0 {
      assert sent[n - 1] == longer[n - 1];
      RequestsOfPrefix(sent, longer, n - 1);
    }
  }

  /** Appending entries of which at most the first is a lease. */
  lemma {:induction false} AppendedCounts(sent: seq<Envelope>, longer: seq<Envelope>, n: nat)
    requires |sent| <= n <= |longer| && sent == longer[..|sent|]
    requires forall k :: |sent| < k < |longer| ==> !longer[k].payload.IsLease()
    ensures n > |sent| && longer[|sent|].payload.IsLease() ==>
      && LeasesIn(longer, n) == LeasesIn(sent, |sent|) + 1
      && LastLease(longer, n) == Some(longer[|sent|].payload.lease)
    ensures n == |sent| || !longer[|sent|].payload.IsLease() ==>
      && LeasesIn(longer, n) == LeasesIn(sent, |sent|)
      && LastLease(longer, n) == LastLease(sent, |sent|)
  {
    if n == |sent| {
      LeasesOfPrefix(sent, longer, n);
      LastLeaseOfPrefix(sent, longer, n);
    } else {
      AppendedCounts(sent, longer, n - 1);
    }
  }

  // ---- The invariant of runs without a revocation ----

  predicate NoRevocation(steps: seq<Step>) {
    forall k :: 0 <= k < |steps| ==> !IsRevocation(steps[k])
  }

  predicate IsRevocation(step: Step) { step.SessionOperator? && step.event.ApprovalRevoked? }

  /** A caller can check this of the configuration: no lease lives long enough to be
      refreshed, or refreshes come due no sooner than the controller accepts them. The pump's
      timer wakes at the deadline or the expiry, whichever is earlier, but may fire late by
      any amount: an offset at or beyond the lifetime is turned away only in runs where it
      fires after both. */
  predicate HonestConfig(c: Config) {
    || c.policy.leaseTtl == 0
    || c.policy.minRefreshInterval <= RefreshOffset(c.policy.leaseTtl, c.scale)
    || c.policy.minRefreshInterval == 0
  }

  /** The request at the head of the agent's queue, if the session would not extend. */
  predicate TurnedAway(c: Config, w: World) {
    && w.sessionLive && w.up < |w.agent.sent| && w.agent.sent[w.up].LeaseRefreshRequest?
    && (|| !w.session.approval.Accepted? || w.session.lease.None?
        || w.session.lease.value.id != w.agent.sent[w.up].leaseId
        || RateLimited(w.session.lease.value, c.policy, w.now))
  }

  /** A request in flight names the agent's lease and was due. */
  predicate Due(c: Config, w: World, k: nat)
    requires k < |w.agent.sent| && w.agent.sent[k].LeaseRefreshRequest?
  {
    && w.agent.lease.Some? && w.agent.sent[k].leaseId == w.agent.lease.value.id
    && w.now >= RefreshDeadline(w.agent.lease.value, c.scale)
  }

  predicate Unmarked(a: Agent) { a.lease.Some? && a.requestedFor != Some(a.lease.value.issuedSeq) }

  /** Requests sent and leases asked for agree, and no lease is asked for twice. */
  predicate AskedOnce(a: Agent) {
    && RequestsIn(a.sent, |a.sent|) == |a.asked|
    && (forall i, j :: 0 <= i < j < |a.asked| ==> a.asked[i] < a.asked[j])
    && (a.lease.None? ==> a.asked == [])
    && (a.lease.Some? ==> forall i :: 0 <= i < |a.asked| ==> a.asked[i] <= a.lease.value.issuedSeq)
    && (Unmarked(a) ==> forall i :: 0 <= i < |a.asked| ==> a.asked[i] < a.lease.value.issuedSeq)
  }

  predicate AgentLoop(c: Config, w: World)
    requires w.down <= |w.session.sent|
  {
    && |w.agent.asked| + (if Unmarked(w.agent) then 1 else 0) <= LeasesIn(w.session.sent, w.down)
    && (c.policy.leaseTtl == 0 ==> w.agent.asked == [] && (w.agentLive && w.agent.lease.Some? ==> !w.checked))
  }

  predicate SessionLoop(c: Config, w: World)
    requires w.up <= |w.agent.sent|
  {
    && LeasesIn(w.session.sent, |w.session.sent|)
         <= (if w.session.lease.Some? then 1 + RequestsIn(w.agent.sent, w.up) else 0)
    && w.session.lease == LastLease(w.session.sent, |w.session.sent|)
    && (w.up > 0 ==> (w.session.lease.Some? <==> w.session.approval.Accepted?))
    && (forall k :: w.up <= k < |w.agent.sent| && w.agent.sent[k].LeaseRefreshRequest? ==> Due(c, w, k))
  }

  predicate Loop(c: Config, w: World) {
    && Inv(c, w) && AskedOnce(w.agent) && AgentLoop(c, w)
    && (w.sessionLive ==> SessionLoop(c, w))
  }

  lemma OneInFlight(c: Config, w: World)
    requires Loop(c, w) && w.sessionLive
    ensures 0 <= LeasesInFlight(w) && 0 <= RequestsInFlight(w)
    ensures LeasesInFlight(w) + RequestsInFlight(w) <= 1
    ensures LeasesInFlight(w) == 0 ==> w.session.lease == w.agent.lease
  {
    LeasesMonotone(w.session.sent, w.down, |w.session.sent|);
    RequestsMonotone(w.agent.sent, w.up, |w.agent.sent|);
  }

  lemma NeverTurnedAway(c: Config, w: World)
    requires Loop(c, w) && HonestConfig(c)
    ensures !TurnedAway(c, w)
  {
    if w.sessionLive && w.up < |w.agent.sent| && w.agent.sent[w.up].LeaseRefreshRequest? {
      OneInFlight(c, w);
      RequestAhead(w.agent.sent, w.up, w.up, |w.agent.sent|);
      assert Due(c, w, w.up);
      var k := LastLeaseFound(w.session.sent, w.down);
      assert StampedBy(c.policy, w.session.sent[k], w.now);
    }
  }

  /** The session's half after a handler, given whether it sent a lease. */
  lemma HandlerCounts(c: Config, w: World, step: Step)
    requires Loop(c, w) && Enabled(w, step)
    requires step.SessionReceive? || step.SessionOperator? || step.SessionForward?
    ensures var s := w.session.sent;
      var r := SessionReply(c, w, step).session;
      var issued := |s| < |r.sent| && r.sent[|s|].payload.IsLease();
      && |s| <= |r.sent| && LeasesIn(r.sent, |r.sent|) == LeasesIn(s, |s|) + (if issued then 1 else 0)
      && LastLease(r.sent, |r.sent|) == (if issued then r.lease else LastLease(s, |s|))
      && (issued ==> r.lease.Some?)
      && LeasesIn(r.sent, w.down) == LeasesIn(s, w.down)
  {
    HandlerExtends(c, w, step);
    var r := SessionReply(c, w, step).session;
    AppendedCounts(w.session.sent, r.sent, |r.sent|);
    LeasesOfPrefix(w.session.sent, r.sent, w.down);
  }

  lemma GrantSent(s: Session, p: Policy, now: int, id: int, creds: seq<string>)
    requires s.cmdSeq == Cap(|s.sent|)
    ensures var r := IssueInitial(s, p, now, id, creds, true);
      && r.error.None? && r.session.lease.Some? && r.session.approval == s.approval
      && |s.sent| < |r.session.sent| && r.session.sent[|s.sent|].payload.IsLease()
  {
    var lease := IssuedLease(s, p, now, id);
    var r := PushCommand(s.(lease := Some(lease)), LeaseGrant(lease), true);
    CredentialsExtend(r.session, creds, true);
  }

  lemma GrantLost(s: Session, p: Policy, now: int, id: int, creds: seq<string>)
    ensures IssueInitial(s, p, now, id, creds, false).error.Some?
  {
  }

  lemma RegisterKeeps(c: Config, w: World, step: Step)
    requires Loop(c, w) && Enabled(w, step) && step.SessionReceive?
    requires w.agent.sent[w.up].Register?
    ensures Loop(c, After(c, w, step))
  {
    SessionStepKeeps(c, w, step);
    HandlerCounts(c, w, step);
    var t, a := w.agent.sent[w.up], step.admission;
    if t.protocolVersion == PROTOCOL_VERSION && !a.Refused() && a.Answer().Accepted? {
      var s := w.session.(approval := Accepted, agentId := Some(t.agentId));
      if w.agentLive {
        GrantSent(s, c.policy, w.now, step.id, step.creds);
      } else {
        GrantLost(s, c.policy, w.now, step.id, step.creds);
      }
    }
  }

  lemma RequestKeeps(c: Config, w: World, step: Step)
    requires Loop(c, w) && Enabled(w, step) && step.SessionReceive?
    requires w.agent.sent[w.up].LeaseRefreshRequest?
    ensures AgentLoop(c, After(c, w, step))
    ensures After(c, w, step).sessionLive ==> SessionLoop(c, After(c, w, step))
  {
    HandlerCounts(c, w, step);
    OneInFlight(c, w);
    RequestAhead(w.agent.sent, w.up, w.up, |w.agent.sent|);
    assert Due(c, w, w.up);
  }

  lemma PlainMessageKeeps(c: Config, w: World, step: Step)
    requires Loop(c, w) && Enabled(w, step) && step.SessionReceive?
    requires !w.agent.sent[w.up].Register? && !w.agent.sent[w.up].LeaseRefreshRequest?
    ensures Loop(c, After(c, w, step))
  {
    SessionStepKeeps(c, w, step);
    assert After(c, w, step) == w.(up := w.up + 1);
  }

  lemma ReceiveKeepsLoop(c: Config, w: World, step: Step)
    requires Loop(c, w) && Enabled(w, step) && step.SessionReceive?
    ensures Loop(c, After(c, w, step))
  {
    if w.agent.sent[w.up].Register? {
      RegisterKeeps(c, w, step);
    } else if w.agent.sent[w.up].LeaseRefreshRequest? {
      SessionStepKeeps(c, w, step);
      RequestKeeps(c, w, step);
    } else {
      PlainMessageKeeps(c, w, step);
    }
  }

  lemma OperatorKeeps(c: Config, w: World, step: Step)
    requires Loop(c, w) && Enabled(w, step)
    requires (step.SessionOperator? && !IsRevocation(step)) || step.SessionForward?
    ensures Loop(c, After(c, w, step))
  {
    SessionStepKeeps(c, w, step);
    HandlerCounts(c, w, step);
    LeasesMonotone(w.session.sent, w.down, |w.session.sent|);
    RequestsMonotone(w.agent.sent, w.up, |w.agent.sent|);
    if step.SessionOperator? && !w.session.approval.Accepted? {
      var s := w.session.(approval := Accepted);
      if w.agentLive {
        GrantSent(s, c.policy, w.now, step.id, step.creds);
      } else {
        GrantLost(s, c.policy, w.now, step.id, step.creds);
      }
    }
  }

  lemma {:induction false} PlainCounts(sent: seq<Telemetry>, longer: seq<Telemetry>, n: nat)
    requires |sent| <= n <= |longer| && sent == longer[..|sent|]
    requires forall k :: |sent| <= k < n ==> !longer[k].LeaseRefreshRequest?
    ensures RequestsIn(longer, n) == RequestsIn(sent, |sent|)
  {
    if n == |sent| { RequestsOfPrefix(sent, longer, n); } else { PlainCounts(sent, longer, n - 1); }
  }

  lemma RequestAsksOnce(a: Agent, open: bool)
    requires AskedOnce(a) && Unmarked(a)
    ensures AskedOnce(RequestRefresh(a, open).agent)
  {
    RequestsOfPrefix(a.sent, RequestRefresh(a, open).agent.sent, |a.sent|);
  }

  lemma SnapshotAsksOnce(a: Agent, open: bool)
    requires AskedOnce(a)
    ensures AskedOnce(SendTelemetry(a, DeploymentState, open).agent)
  {
    var b := SendTelemetry(a, DeploymentState, open).agent;
    PlainCounts(a.sent, b.sent, |b.sent|);
  }

  lemma TimeoutAsksOnce(a: Agent, snapshot: bool, scale: Scaling, now: int, open: bool)
    requires AskedOnce(a)
    ensures AskedOnce(OnTimeout(a, snapshot, scale, now, open).agent)
  {
    if snapshot { SnapshotAsksOnce(a, open); }
    var b := if snapshot then SendTelemetry(a, DeploymentState, open).agent else a;
    if RefreshDue(b, scale, now) { RequestAsksOnce(b, open); }
  }

  lemma CommandAsksOnce(c: Config, w: World, reply: Option<Telemetry>)
    requires Inv(c, w) && AskedOnce(w.agent) && w.down < |w.session.sent| && PlainReply(reply)
    ensures AskedOnce(OnReceive(w.agent, w.session.sent[w.down], reply, w.sessionLive).agent)
  {
    var sent := w.session.sent;
    var o := OnReceive(w.agent, sent[w.down], reply, w.sessionLive);
    CommandEffect(w.agent, sent[w.down], reply, w.sessionLive);
    PlainCounts(w.agent.sent, o.agent.sent, |o.agent.sent|);
    if w.agent.lease.Some? {
      var k := LastLeaseFound(sent, w.down);
      assert StampedBy(c.policy, sent[k], w.now);
    }
    assert StampedBy(c.policy, sent[w.down], w.now);
  }

  lemma AskedStep(c: Config, w: World, step: Step)
    requires Inv(c, w) && AskedOnce(w.agent)
    ensures AskedOnce(After(c, w, step).agent)
  {
    if Enabled(w, step) {
      if step.AgentTimeout? {
        TimeoutAsksOnce(w.agent, step.snapshot, c.scale, w.now, w.sessionLive);
      } else if step.AgentReceive? {
        CommandAsksOnce(c, w, step.reply);
      }
    }
  }

  lemma {:induction false} AskedRun(c: Config, w: World, steps: seq<Step>)
    requires Inv(c, w) && AskedOnce(w.agent)
    ensures AskedOnce(Run(c, w, steps).agent)
    decreases steps
  {
    if steps != [] {
      AskedStep(c, w, steps[0]);
      StepKeeps(c, w, steps[0]);
      AskedRun(c, After(c, w, steps[0]), steps[1..]);
    }
  }

  /** Over every run, revocations, crashes and counter saturation included, the agent sends
      at most one refresh request per lease number. */
  lemma OneRequestPerLease(
      c: Config, now: int, agentId: string, version: nat, steps: seq<Step>)
    ensures var a := Run(c, Start(now, agentId, version), steps).agent;
      && RequestsIn(a.sent, |a.sent|) == |a.asked|
      && (forall i, j :: 0 <= i < j < |a.asked| ==> a.asked[i] < a.asked[j])
  {
    StartHolds(c, now, agentId, version);
    AskedRun(c, Start(now, agentId, version), steps);
  }

  lemma TopKeeps(c: Config, w: World)
    requires Loop(c, w) && Enabled(w, AgentTop)
    ensures Loop(c, After(c, w, AgentTop))
  {
    AgentStepKeeps(c, w, AgentTop);
    AskedStep(c, w, AgentTop);
    if w.agent.lease.Some? {
      var k := LastLeaseFound(w.session.sent, w.down);
      assert StampedBy(c.policy, w.session.sent[k], w.now);
    }
  }

  lemma TimeoutKeepsSession(c: Config, w: World, step: Step)
    requires Loop(c, w) && Enabled(w, step) && step.AgentTimeout? && w.sessionLive
    ensures w.up <= |After(c, w, step).agent.sent| && SessionLoop(c, After(c, w, step))
  {
    var v := After(c, w, step);
    assert w.agent.sent == v.agent.sent[..|w.agent.sent|];
    RequestsOfPrefix(w.agent.sent, v.agent.sent, w.up);
    forall k | w.up <= k < |v.agent.sent| && v.agent.sent[k].LeaseRefreshRequest? ensures Due(c, v, k) {
      if k < |w.agent.sent| { assert Due(c, w, k); }
    }
  }

  lemma TimeoutKeeps(c: Config, w: World, step: Step)
    requires Loop(c, w) && Enabled(w, step) && step.AgentTimeout?
    ensures Loop(c, After(c, w, step))
  {
    AgentStepKeeps(c, w, step);
    AskedStep(c, w, step);
    if w.sessionLive { TimeoutKeepsSession(c, w, step); }
  }

  lemma CommandKeepsAgent(c: Config, w: World, step: Step)
    requires Loop(c, w) && Enabled(w, step) && step.AgentReceive?
    ensures AgentLoop(c, After(c, w, step))
  {
    CommandEffect(w.agent, w.session.sent[w.down], step.reply, w.sessionLive);
  }

  lemma CommandKeepsSession(c: Config, w: World, step: Step)
    requires Loop(c, w) && Enabled(w, step) && step.AgentReceive? && w.sessionLive
    ensures w.up <= |After(c, w, step).agent.sent| && SessionLoop(c, After(c, w, step))
  {
    var sent, before, after := w.session.sent, w.agent.sent, After(c, w, step).agent.sent;
    CommandEffect(w.agent, sent[w.down], step.reply, true);
    RequestsOfPrefix(before, after, w.up);
    assert forall k :: 0 <= k < |before| ==> before[k] == after[k];
    if sent[w.down].payload.IsLease() {
      OneInFlight(c, w);
      LeaseAhead(sent, w.down, w.down, |sent|);
      forall k | w.up <= k < |after| ensures !after[k].LeaseRefreshRequest? {
        if k < |before| && before[k].LeaseRefreshRequest? {
          RequestAhead(before, w.up, k, |before|);
        }
      }
    }
  }

  lemma CommandKeeps(c: Config, w: World, step: Step)
    requires Loop(c, w) && Enabled(w, step) && step.AgentReceive?
    ensures Loop(c, After(c, w, step))
  {
    AgentStepKeeps(c, w, step);
    AskedStep(c, w, step);
    CommandKeepsAgent(c, w, step);
    if w.sessionLive { CommandKeepsSession(c, w, step); }
  }

  lemma QuietKeeps(c: Config, w: World, step: Step)
    requires Loop(c, w) && Enabled(w, step)
    requires step.Tick? || step.SessionStop? || step.AgentStop? || step.AgentHangup?
    ensures Loop(c, After(c, w, step))
  {
    StepKeeps(c, w, step);
  }

  lemma LoopStep(c: Config, w: World, step: Step)
    requires Loop(c, w) && !IsRevocation(step)
    ensures Loop(c, After(c, w, step))
  {
    if Enabled(w, step) {
      match step
      case AgentTop => TopKeeps(c, w);
      case AgentTimeout(_) => TimeoutKeeps(c, w, step);
      case AgentReceive(_) => CommandKeeps(c, w, step);
      case SessionReceive(_, _, _) => ReceiveKeepsLoop(c, w, step);
      case SessionOperator(_, _, _) => OperatorKeeps(c, w, step);
      case SessionForward(_) => OperatorKeeps(c, w, step);
      case _ => QuietKeeps(c, w, step);
    }
  }

  lemma {:induction false} LoopRun(c: Config, w: World, steps: seq<Step>)
    requires Loop(c, w) && NoRevocation(steps)
    ensures Loop(c, Run(c, w, steps))
    decreases steps
  {
    if steps != [] {
      assert !IsRevocation(steps[0]);
      LoopStep(c, w, steps[0]);
      LoopRun(c, After(c, w, steps[0]), steps[1..]);
    }
  }

  // ---- What the loop guarantees ----

  /** Over every run without a revocation, while the session lives: the two sides hold the
      same lease or differ by the one lease command in flight, never are two lease messages
      in flight in either direction, and a request can only be turned away for its timing. */
  lemma LeasesInStep(
      c: Config, now: int, agentId: string, version: nat, steps: seq<Step>)
    requires NoRevocation(steps) && Run(c, Start(now, agentId, version), steps).sessionLive
    ensures var w := Run(c, Start(now, agentId, version), steps);
      && w.down <= |w.session.sent| && w.up <= |w.agent.sent|
      && LeasesInFlight(w) + RequestsInFlight(w) <= 1
      && (w.session.lease == w.agent.lease || LeasesInFlight(w) == 1)
      && w.session.lease == LastLease(w.session.sent, |w.session.sent|)
      && w.agent.lease == LastLease(w.session.sent, w.down)
      && (TurnedAway(c, w) ==>
            && w.session.approval.Accepted? && w.session.lease.Some?
            && w.session.lease.value.id == w.agent.sent[w.up].leaseId)
  {
    StartHolds(c, now, agentId, version);
    LoopRun(c, Start(now, agentId, version), steps);
    var w := Run(c, Start(now, agentId, version), steps);
    OneInFlight(c, w);
    if TurnedAway(c, w) {
      RequestAhead(w.agent.sent, w.up, w.up, |w.agent.sent|);
      assert Due(c, w, w.up);
    }
  }

  /** The shortest way to a refresh request at the head of the controller's queue. */
  function FirstRefresh(c: Config): seq<Step> {
    var offset := RefreshOffset(c.policy.leaseTtl, c.scale);
    [SessionReceive(Admission(true, None, false), 1, []), AgentTop, AgentReceive(None), AgentTop,
     Tick(if offset > 0 then offset else 0), AgentTimeout(false),
     SessionReceive(Admission(true, None, false), 1, [])]
  }

  lemma RunFrom(c: Config, w: World, s: seq<Step>, k: nat)
    requires k < |s|
    ensures Run(c, w, s[k..]) == Run(c, After(c, w, s[k]), s[k + 1..])
  {
    assert s[k..][1..] == s[k + 1..];
  }

  lemma RunSeven(c: Config, w0: World, s: seq<Step>) returns (w4: World, w7: World)
    requires |s| == 7
    ensures w4 == After(c, After(c, After(c, After(c, w0, s[0]), s[1]), s[2]), s[3])
    ensures w7 == After(c, After(c, After(c, w4, s[4]), s[5]), s[6])
    ensures w7 == Run(c, w0, s)
  {
    var w1 := After(c, w0, s[0]);
    var w2 := After(c, w1, s[1]);
    var w3 := After(c, w2, s[2]);
    w4 := After(c, w3, s[3]);
    var w5 := After(c, w4, s[4]);
    var w6 := After(c, w5, s[5]);
    w7 := After(c, w6, s[6]);
    assert s[0..] == s && s[7..] == [];
    RunFrom(c, w0, s, 0);
    RunFrom(c, w1, s, 1);
    RunFrom(c, w2, s, 2);
    RunFrom(c, w3, s, 3);
    RunFrom(c, w4, s, 4);
    RunFrom(c, w5, s, 5);
    RunFrom(c, w6, s, 6);
  }

  /** A freshly granted agent, past the expiry check, its acknowledgement unread. */
  predicate Granted(c: Config, w: World, lease: Lease) {
    && w.sessionLive && w.session.lease == Some(lease) && w.session.approval.Accepted?
    && w.agent.lease == Some(lease) && w.agent.requestedFor == None
    && |w.agent.sent| == 2 && w.agent.sent[1].Ack? && w.up == 1 && w.now == lease.issuedAt && w.checked
    && lease.expiresAt == lease.issuedAt + c.policy.leaseTtl
    && (w.agentLive <==> c.policy.leaseTtl > 0)
  }

  lemma FirstGrant(c: Config, now: int, agentId: string, w: World)
    requires var s := FirstRefresh(c);
      w == After(c, After(c, After(c, After(c, Start(now, agentId, PROTOCOL_VERSION), s[0]), s[1]), s[2]), s[3])
    ensures Granted(c, w, Lease(1, agentId, now, now + c.policy.leaseTtl, 1))
  {
    var s := FirstRefresh(c);
    var lease := Lease(1, agentId, now, now + c.policy.leaseTtl, 1);
    var w1 := After(c, Start(now, agentId, PROTOCOL_VERSION), s[0]);
    assert w1.session.sent == [Envelope(1, LeaseGrant(lease))] && w1.session.lease == Some(lease);
  }

  lemma EarlyRequest(c: Config, w: World, lease: Lease)
    requires !HonestConfig(c) && Granted(c, w, lease)
    ensures var s := FirstRefresh(c);
      TurnedAway(c, After(c, After(c, After(c, w, s[4]), s[5]), s[6]))
  {
    var s := FirstRefresh(c);
    var v := After(c, After(c, w, s[4]), s[5]);
    assert v.agent.sent == w.agent.sent + [LeaseRefreshRequest(lease.id)];
  }

  lemma DishonestTurnsAway(c: Config, now: int, agentId: string)
    requires !HonestConfig(c)
    ensures NoRevocation(FirstRefresh(c))
    ensures TurnedAway(c, Run(c, Start(now, agentId, PROTOCOL_VERSION), FirstRefresh(c)))
  {
    var w, v := RunSeven(c, Start(now, agentId, PROTOCOL_VERSION), FirstRefresh(c));
    FirstGrant(c, now, agentId, w);
    EarlyRequest(c, w, Lease(1, agentId, now, now + c.policy.leaseTtl, 1));
  }

  /** No run without a revocation ever has a request turned away, neither rate-limited nor
      refused for its lease id, exactly when the configuration is honest. */
  lemma NeverTurnedAwayIff(c: Config, now: int, agentId: string)
    ensures HonestConfig(c) <==>
      forall steps :: NoRevocation(steps) ==>
        !TurnedAway(c, Run(c, Start(now, agentId, PROTOCOL_VERSION), steps))
  {
    if HonestConfig(c) {
      forall steps | NoRevocation(steps)
        ensures !TurnedAway(c, Run(c, Start(now, agentId, PROTOCOL_VERSION), steps))
      {
        StartHolds(c, now, agentId, PROTOCOL_VERSION);
        LoopRun(c, Start(now, agentId, PROTOCOL_VERSION), steps);
        NeverTurnedAway(c, Run(c, Start(now, agentId, PROTOCOL_VERSION), steps));
      }
    } else {
      DishonestTurnsAway(c, now, agentId);
    }
  }
}
