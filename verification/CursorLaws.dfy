/** The reconnect cursor. Telemetry and commands advance one shared field, so the cursor an
    agent would resume from runs ahead of the commands it has been delivered. */
module CursorLaws {
  import opened Wrappers
  import opened Control
  import opened ControllerSession
  import opened LeaseAgent
  import opened LeaseProtocol
  import opened LeaseSafety
  import opened RefreshLoop
  import opened Replay

  // ---- How far ahead the cursor runs ----

  lemma AckAdvances(a: Agent, seqNo: nat, open: bool)
    ensures Acknowledged(a, seqNo, open).agent.cursor >= Next(a.cursor)
  {
  }

  /** Every command but a revocation moves the cursor, answered or not. */
  lemma CommandAdvances(a: Agent, e: Envelope, reply: Option<Telemetry>, open: bool)
    ensures var o := OnReceive(a, e, reply, open);
      o.agent.cursor >= if e.payload.LeaseRevoke? then a.cursor else Next(a.cursor)
  {
    match e.payload
    case LeaseGrant(l) => AckAdvances(Installed(a, l), e.seqNo, open);
    case LeaseRefresh(l) => AckAdvances(Installed(a, l), e.seqNo, open);
    case LeaseRevoke(_) =>
    case PushCredential(_) => AckAdvances(a, e.seqNo, open);
    case Heartbeat => AckAdvances(SendTelemetry(a, AgentHeartbeat, open).agent, e.seqNo, open);
    case Deployment(_) =>
      AckAdvances(if reply.Some? then SendTelemetry(a, reply.value, open).agent else a, e.seqNo, open);
  }

  /** The cursor covers every delivered command, and one more unless a revocation was the
      last thing delivered. */
  ghost predicate RunsAhead(w: World)
    requires w.down <= |w.session.sent|
  {
    w.agent.cursor >= Cap(w.down) && (RevokedWithin(w.session.sent, w.down) || w.agent.cursor >= Cap(w.down + 1))
  }

  lemma TimeoutAdvances(a: Agent, snapshot: bool, scale: Scaling, now: int, open: bool)
    ensures OnTimeout(a, snapshot, scale, now, open).agent.cursor >= a.cursor
  {
  }

  lemma ReceiveRunsAhead(c: Config, w: World, step: Step)
    requires Inv(c, w) && RunsAhead(w) && Enabled(w, step) && step.AgentReceive?
    ensures RunsAhead(After(c, w, step)) && After(c, w, step).agent.cursor >= w.agent.cursor
  {
    var sent := w.session.sent;
    CommandAdvances(w.agent, sent[w.down], step.reply, w.sessionLive);
    assert !RevokedWithin(sent, w.down);
    if sent[w.down].payload.LeaseRevoke? { assert RevokedWithin(sent, w.down + 1); }
  }

  lemma SessionRunsAhead(c: Config, w: World, step: Step)
    requires Inv(c, w) && RunsAhead(w) && Enabled(w, step)
    requires step.SessionReceive? || step.SessionOperator? || step.SessionForward?
    ensures w.down <= |After(c, w, step).session.sent| && RunsAhead(After(c, w, step))
  {
    HandlerExtends(c, w, step);
    LastLeaseOfPrefix(w.session.sent, After(c, w, step).session.sent, w.down);
  }

  lemma StepRunsAhead(c: Config, w: World, step: Step)
    requires Inv(c, w) && RunsAhead(w)
    ensures Inv(c, After(c, w, step)) && RunsAhead(After(c, w, step))
    ensures After(c, w, step).agent.cursor >= w.agent.cursor
  {
    StepKeeps(c, w, step);
    if Enabled(w, step) {
      if step.AgentReceive? {
        ReceiveRunsAhead(c, w, step);
      } else if step.AgentTimeout? {
        TimeoutAdvances(w.agent, step.snapshot, c.scale, w.now, w.sessionLive);
      } else if step.SessionReceive? || step.SessionOperator? || step.SessionForward? {
        SessionRunsAhead(c, w, step);
      }
    }
  }

  lemma {:induction false} RunRunsAhead(c: Config, w: World, steps: seq<Step>)
    requires Inv(c, w) && RunsAhead(w)
    ensures Inv(c, Run(c, w, steps)) && RunsAhead(Run(c, w, steps))
    decreases steps
  {
    if steps != [] {
      StepRunsAhead(c, w, steps[0]);
      RunRunsAhead(c, After(c, w, steps[0]), steps[1..]);
    }
  }

  // ---- What resuming would deliver ----

  function Payloads(log: seq<Envelope>): seq<Command> {
    if log == [] then [] else [log[0].payload] + Payloads(log[1..])
  }

  lemma {:induction false} AllOrFewer(log: seq<Envelope>, after: nat)
    ensures |PayloadsAfter(log, after)| <= |Payloads(log)| == |log|
    ensures PayloadsAfter(log, after) == Payloads(log) <==> forall k :: 0 <= k < |log| ==> log[k].seqNo > after
    ensures PayloadsAfter(log, after) == Payloads(log) <==> |PayloadsAfter(log, after)| == |log|
  {
    if log != [] {
      AllOrFewer(log[1..], after);
      assert forall k :: 1 <= k < |log| ==> log[k] == log[1..][k - 1];
    }
  }

  lemma CapMonotone(m: nat, n: nat)
    requires m <= n
    ensures Cap(m) <= Cap(n)
  {
  }

  /** Over every run, live or ended in any way: resuming after the cursor repeats no delivered
      command, and returns all the undelivered ones if and only if there are none or the
      cursor is still below the number of the first. */
  lemma ResumeCompleteIff(
      c: Config, now: int, agentId: string, version: nat, steps: seq<Step>)
    ensures var w := Run(c, Start(now, agentId, version), steps);
      && w.down <= |w.session.sent| && RunsAhead(w)
      && PayloadsAfter(w.session.sent[..w.down], w.agent.cursor) == []
      && (PayloadsAfter(w.session.sent, w.agent.cursor) == Payloads(w.session.sent[w.down..]) <==>
            w.down == |w.session.sent| || w.agent.cursor < w.session.sent[w.down].seqNo)
  {
    StartHolds(c, now, agentId, version);
    RunRunsAhead(c, Start(now, agentId, version), steps);
    var w := Run(c, Start(now, agentId, version), steps);
    var sent, cursor := w.session.sent, w.agent.cursor;
    var rest := sent[w.down..];
    forall k | 0 <= k < w.down ensures sent[..w.down][k].seqNo <= cursor { CapMonotone(k + 1, w.down); }
    NothingAfterIff(sent[..w.down], cursor);
    assert sent == sent[..w.down] + rest;
    PayloadsSplit(sent[..w.down], rest, cursor);
    AllOrFewer(rest, cursor);
    forall k | 0 <= k < |rest| ensures rest[k].seqNo >= sent[w.down].seqNo {
      CapMonotone(w.down + 1, w.down + k + 1);
    }
    if rest != [] { assert rest[0] == sent[w.down]; }
  }

  /** Unless its connection was ended by a revocation, an agent that resumed from its cursor
      would be given its whole backlog exactly when it has none: the first undelivered
      command is always skipped. */
  lemma ResumeSkipsNext(
      c: Config, now: int, agentId: string, version: nat, steps: seq<Step>)
    requires var w := Run(c, Start(now, agentId, version), steps);
      w.down <= |w.session.sent| ==> !RevokedWithin(w.session.sent, w.down)
    ensures var w := Run(c, Start(now, agentId, version), steps);
      && w.down <= |w.session.sent|
      && (PayloadsAfter(w.session.sent, w.agent.cursor) == Payloads(w.session.sent[w.down..]) <==>
            w.down == |w.session.sent|)
      && (w.down < |w.session.sent| ==> w.session.sent[w.down].seqNo <= w.agent.cursor)
  {
    ResumeCompleteIff(c, now, agentId, version, steps);
    Reached(c, now, agentId, version, steps);
  }

  /** After a revocation the cursor may have stayed at the last delivered number; resuming is
      complete exactly when nothing is left or it did. */
  lemma RevokedResumeIff(
      c: Config, now: int, agentId: string, version: nat, steps: seq<Step>)
    requires var w := Run(c, Start(now, agentId, version), steps);
      w.down < U64_MAX && w.down <= |w.session.sent| && RevokedWithin(w.session.sent, w.down)
    ensures var w := Run(c, Start(now, agentId, version), steps);
      && w.agent.cursor >= w.down
      && (PayloadsAfter(w.session.sent, w.agent.cursor) == Payloads(w.session.sent[w.down..]) <==>
            w.down == |w.session.sent| || w.agent.cursor == w.down)
  {
    ResumeCompleteIff(c, now, agentId, version, steps);
    Reached(c, now, agentId, version, steps);
  }

  // ---- Two short runs ----

  /** The grant is on its way when the agent stops: resuming would return nothing. */
  lemma GrantSkipped(c: Config, now: int, agentId: string)
    ensures var w := Run(c, Start(now, agentId, PROTOCOL_VERSION),
                         [SessionReceive(Admission(true, None, false), 1, []), AgentStop]);
      && !w.agentLive && w.down == 0 && |w.session.sent| == 1 && w.session.sent[0].payload.LeaseGrant?
      && PayloadsAfter(w.session.sent, w.agent.cursor) == []
  {
    var s := [SessionReceive(Admission(true, None, false), 1, []), AgentStop];
    var w0 := Start(now, agentId, PROTOCOL_VERSION);
    var w1 := After(c, w0, s[0]);
    var lease := Lease(1, agentId, now, now + c.policy.leaseTtl, 1);
    assert w1.session.sent == [Envelope(1, LeaseGrant(lease))];
    assert s[0..] == s && s[2..] == [];
    RunFrom(c, w0, s, 0);
    RunFrom(c, w1, s, 1);
    NothingAfterIff(w1.session.sent, w1.agent.cursor);
  }

  /** A pending agent is revoked and granted again before it reads the revocation: resuming
      would return exactly the grant. */
  lemma RevokedMayResume(c: Config, now: int, agentId: string) returns (steps: seq<Step>)
    ensures var w := Run(c, Start(now, agentId, PROTOCOL_VERSION), steps);
      && w.down == 1 && |w.session.sent| == 2 && RevokedWithin(w.session.sent, w.down)
      && PayloadsAfter(w.session.sent, w.agent.cursor) == Payloads(w.session.sent[w.down..])
  {
    steps := [SessionReceive(Admission(true, Some(Pending), true), 1, []),
              SessionOperator(ApprovalRevoked(""), 1, []), SessionOperator(ApprovalGranted, 1, []),
              AgentTop, AgentReceive(None)];
    var w0 := Start(now, agentId, PROTOCOL_VERSION);
    var w1 := After(c, w0, steps[0]);
    var w2 := After(c, w1, steps[1]);
    var w3 := After(c, w2, steps[2]);
    var w4 := After(c, w3, steps[3]);
    var w5 := After(c, w4, steps[4]);
    assert w2.session.sent == [Envelope(1, LeaseRevoke(""))];
    assert |w3.session.sent| == 2 && w3.session.sent[0] == w2.session.sent[0] && w3.session.sent[1].seqNo == 2;
    assert w5.agent.cursor == 1 && w5.down == 1;
    assert steps[0..] == steps && steps[5..] == [];
    RunFrom(c, w0, steps, 0);
    RunFrom(c, w1, steps, 1);
    RunFrom(c, w2, steps, 2);
    RunFrom(c, w3, steps, 3);
    RunFrom(c, w4, steps, 4);
    assert RevokedWithin(w5.session.sent, 1);
    ResumeCompleteIff(c, now, agentId, PROTOCOL_VERSION, steps);
  }
}
