/** What the agent does over every run: exactly when it asks for a refresh, how expiry,
    revocation and a closed transport end its authority, and what it acknowledges. */
module AgentLaws {
  import opened Wrappers
  import opened Control
  import opened ControllerSession
  import opened LeaseAgent
  import opened LeaseProtocol
  import opened LeaseSafety
  import opened RefreshLoop
  import opened CursorLaws

  // ---- Refresh requests ----

  /** The marker names a lease that was asked about. */
  predicate MarkerAsked(a: Agent) {
    && AskedOnce(a)
    && (a.requestedFor.Some? ==> a.requestedFor.value in a.asked)
  }

  lemma MarkerStep(c: Config, w: World, step: Step)
    requires Inv(c, w) && MarkerAsked(w.agent)
    ensures MarkerAsked(After(c, w, step).agent)
  {
    AskedStep(c, w, step);
    if Enabled(w, step) && step.AgentReceive? {
      CommandEffect(w.agent, w.session.sent[w.down], step.reply, w.sessionLive);
    } else if Enabled(w, step) && step.AgentTimeout? {
      var b := if step.snapshot then SendTelemetry(w.agent, DeploymentState, w.sessionLive).agent else w.agent;
      assert b.requestedFor == w.agent.requestedFor && b.asked == w.agent.asked;
    }
  }

  lemma {:induction false} MarkerRun(c: Config, w: World, steps: seq<Step>)
    requires Inv(c, w) && MarkerAsked(w.agent)
    ensures MarkerAsked(Run(c, w, steps).agent)
    decreases steps
  {
    if steps != [] {
      MarkerStep(c, w, steps[0]);
      StepKeeps(c, w, steps[0]);
      MarkerRun(c, After(c, w, steps[0]), steps[1..]);
    }
  }

  /** Over every run, a timeout of an agent holding a lease sends, after the snapshot if one is
      due, a request naming that lease if and only if the lease was not asked about before
      and the time since its issue has reached the scaled lifetime, in whole milliseconds of
      at least one, truncated toward zero. */
  lemma AsksWhenDue(
      c: Config, now: int, agentId: string, version: nat, steps: seq<Step>, snapshot: bool, lease: Lease)
    requires var w := Run(c, Start(now, agentId, version), steps);
      w.agentLive && w.sessionLive && w.checked && w.agent.lease == Some(lease)
    ensures var w := Run(c, Start(now, agentId, version), steps);
      var v := After(c, w, AgentTimeout(snapshot));
      var life := lease.expiresAt - lease.issuedAt;
      var product := c.scale(if life >= 1_000_000 then life / 1_000_000 else 1);
      var ms := if product >= 0.0 then product.Floor else -((-product).Floor);
      var due := lease.issuedSeq !in w.agent.asked && w.now >= lease.issuedAt + ms * 1_000_000;
      && v.agent.sent == w.agent.sent + (if snapshot then [DeploymentState] else [])
                         + (if due then [LeaseRefreshRequest(lease.id)] else [])
      && v.agent.asked == w.agent.asked + (if due then [lease.issuedSeq] else [])
      && v.agentLive && v.agent.lease == w.agent.lease && v.agent.state == w.agent.state
  {
    StartHolds(c, now, agentId, version);
    var start := Start(now, agentId, version);
    assert RequestsIn(start.agent.sent, 1) == RequestsIn(start.agent.sent, 0);
    MarkerRun(c, start, steps);
    var w := Run(c, Start(now, agentId, version), steps);
    if lease.issuedSeq in w.agent.asked {
      var i :| 0 <= i < |w.agent.asked| && w.agent.asked[i] == lease.issuedSeq;
      assert !Unmarked(w.agent);
    }
  }

  // ---- The ends of authority ----

  /** Over every run, the check at the top of a turn publishes the lease as expired and ends
      the pump if and only if the clock has reached its expiry. */
  lemma TopExpires(c: Config, now: int, agentId: string, version: nat, steps: seq<Step>)
    requires Enabled(Run(c, Start(now, agentId, version), steps), AgentTop)
    ensures var w := Run(c, Start(now, agentId, version), steps);
      var v := After(c, w, AgentTop);
      if w.agent.lease.Some? && w.now >= w.agent.lease.value.expiresAt then
        !v.agentLive && v.agent.state == Expired(w.agent.lease.value)
      else
        v.agentLive && v.checked && v.agent == w.agent
  {
  }

  /** Over every run, a delivered revocation ends the pump and publishes the reason beside the
      lease that was held; a delivered lease is published as held. */
  lemma DeliveryPublishes(
      c: Config, now: int, agentId: string, version: nat, steps: seq<Step>, reply: Option<Telemetry>)
    requires Enabled(Run(c, Start(now, agentId, version), steps), AgentReceive(reply))
    ensures var w := Run(c, Start(now, agentId, version), steps);
      var v := After(c, w, AgentReceive(reply));
      match w.session.sent[w.down].payload
      case LeaseRevoke(reason) =>
        && !v.agentLive
        && v.agent.state == (if w.agent.lease.Some? then Revoked(w.agent.lease.value, reason) else Unclaimed)
      case LeaseGrant(l) => v.agent.lease == Some(l) && v.agent.state == Held(l)
      case LeaseRefresh(l) => v.agent.lease == Some(l) && v.agent.state == Held(l)
      case _ => v.agent.lease == w.agent.lease && v.agent.state == w.agent.state
  {
    var w := Run(c, Start(now, agentId, version), steps);
    Reached(c, now, agentId, version, steps);
    CommandEffect(w.agent, w.session.sent[w.down], reply, w.sessionLive);
  }

  /** Over every run, a command delivered while the session lives is answered by the reply it
      asks for, if any, and then its acknowledgement; a revocation is answered by nothing. */
  lemma DeliveryAnswers(
      c: Config, now: int, agentId: string, version: nat, steps: seq<Step>, reply: Option<Telemetry>)
    requires var w := Run(c, Start(now, agentId, version), steps); Enabled(w, AgentReceive(reply)) && w.sessionLive
    ensures var w := Run(c, Start(now, agentId, version), steps);
      var v := After(c, w, AgentReceive(reply));
      var e := w.session.sent[w.down];
      if e.payload.LeaseRevoke? then v.agent.sent == w.agent.sent
      else
        && v.agentLive
        && v.agent.sent == w.agent.sent
             + (if e.payload.Heartbeat? then [AgentHeartbeat]
                else if e.payload.Deployment? && reply.Some? then [reply.value] else [])
             + [Ack(e.seqNo)]
  {
  }

  lemma {:induction false} DeadAgentSilent(c: Config, w: World, steps: seq<Step>)
    requires !w.agentLive
    ensures Run(c, w, steps).agent == w.agent && !Run(c, w, steps).agentLive
    decreases steps
  {
    if steps != [] { DeadAgentSilent(c, After(c, w, steps[0]), steps[1..]); }
  }

  /** Over every run, an agent whose transport closed on it is unauthorised at every instant
      from then on, before the expiry of the lease it held as well as after, and never again
      installs another. */
  lemma HangupEndsAuthority(
      c: Config, now: int, agentId: string, version: nat, before: seq<Step>, after: seq<Step>, t: int)
    requires Enabled(Run(c, Start(now, agentId, version), before), AgentHangup)
    ensures var w := Run(c, Start(now, agentId, version), before);
      var v := Run(c, After(c, w, AgentHangup), after);
      && !v.agentLive && !v.agent.state.AuthorisedAt(t) && v.agent.lease == w.agent.lease
      && v.agent.state == (if w.agent.lease.Some? then Expired(w.agent.lease.value) else Unclaimed)
  {
    var w := Run(c, Start(now, agentId, version), before);
    Reached(c, now, agentId, version, before);
    DeadAgentSilent(c, After(c, w, AgentHangup), after);
  }

  // ---- Acknowledgements and the cursor ----

  /** The numbers acknowledged among the first n messages. */
  function Acked(sent: seq<Telemetry>, n: nat): seq<nat>
    requires n <= |sent|
  {
    if n == 0 then []
    else Acked(sent, n - 1) + if sent[n - 1].Ack? then [sent[n - 1].appliedSeq] else []
  }

  lemma {:induction false} AckedOfPrefix(sent: seq<Telemetry>, longer: seq<Telemetry>, n: nat)
    requires n <= |sent| <= |longer| && sent == longer[..|sent|]
    ensures Acked(sent, n) == Acked(longer, n)
  {
    if n > 0 {
      assert sent[n - 1] == longer[n - 1];
      AckedOfPrefix(sent, longer, n - 1);
    }
  }

  lemma AckedMore(sent: seq<Telemetry>, t: Telemetry)
    ensures Acked(sent + [t], |sent| + 1) == Acked(sent, |sent|) + if t.Ack? then [t.appliedSeq] else []
  {
    AckedOfPrefix(sent, sent + [t], |sent|);
  }

  /** A live pump has acknowledged every delivered command, once, in order, and while the
      session lives its cursor counts the messages it sent. */
  predicate Acknowledging(w: World) {
    && w.down <= |w.session.sent|
    && (w.agentLive ==>
          && |Acked(w.agent.sent, |w.agent.sent|)| == w.down
          && (forall k :: 0 <= k < w.down ==>
                Acked(w.agent.sent, |w.agent.sent|)[k] == w.session.sent[k].seqNo))
    && (w.sessionLive ==> w.agent.cursor == Cap(|w.agent.sent|))
  }

  lemma SentCounts(a: Agent, t: Telemetry)
    requires a.cursor == Cap(|a.sent|)
    ensures var b := SendTelemetry(a, t, true).agent;
      && b.cursor == Cap(|b.sent|)
      && Acked(b.sent, |b.sent|) == Acked(a.sent, |a.sent|) + if t.Ack? then [t.appliedSeq] else []
  {
    AckedMore(a.sent, t);
  }

  lemma AckCounts(a: Agent, seqNo: nat)
    requires a.cursor == Cap(|a.sent|) && seqNo <= a.cursor
    ensures var o := Acknowledged(a, seqNo, true);
      && o.error.None? && o.agent.cursor == Cap(|o.agent.sent|)
      && Acked(o.agent.sent, |o.agent.sent|) == Acked(a.sent, |a.sent|) + [seqNo]
  {
    SentCounts(a, Ack(seqNo));
  }

  lemma CommandCounts(a: Agent, e: Envelope, reply: Option<Telemetry>)
    requires a.cursor == Cap(|a.sent|) && e.seqNo <= a.cursor && (reply.Some? ==> !reply.value.Ack?)
    ensures var o := OnReceive(a, e, reply, true);
      && o.agent.cursor == Cap(|o.agent.sent|)
      && (!e.payload.LeaseRevoke? ==>
            && o.error.None?
            && Acked(o.agent.sent, |o.agent.sent|) == Acked(a.sent, |a.sent|) + [e.seqNo])
  {
    match e.payload
    case LeaseGrant(l) => AckCounts(Installed(a, l), e.seqNo);
    case LeaseRefresh(l) => AckCounts(Installed(a, l), e.seqNo);
    case LeaseRevoke(_) =>
    case PushCredential(_) => AckCounts(a, e.seqNo);
    case Heartbeat =>
      SentCounts(a, AgentHeartbeat);
      AckCounts(SendTelemetry(a, AgentHeartbeat, true).agent, e.seqNo);
    case Deployment(_) =>
      if reply.Some? {
        SentCounts(a, reply.value);
        AckCounts(SendTelemetry(a, reply.value, true).agent, e.seqNo);
      } else {
        AckCounts(a, e.seqNo);
      }
  }

  lemma CommandFails(a: Agent, e: Envelope, reply: Option<Telemetry>)
    ensures OnReceive(a, e, reply, false).error.Some?
  {
  }

  lemma TimeoutCounts(a: Agent, snapshot: bool, scale: Scaling, now: int, open: bool)
    ensures var o := OnTimeout(a, snapshot, scale, now, open);
      && Acked(o.agent.sent, |o.agent.sent|) == Acked(a.sent, |a.sent|)
      && (open && a.cursor == Cap(|a.sent|) ==> o.agent.cursor == Cap(|o.agent.sent|))
  {
    AckedMore(a.sent, DeploymentState);
    var b := if snapshot then SendTelemetry(a, DeploymentState, open).agent else a;
    if b.lease.Some? { AckedMore(b.sent, LeaseRefreshRequest(b.lease.value.id)); }
  }

  lemma ReceiveAcknowledges(c: Config, w: World, step: Step)
    requires Inv(c, w) && RunsAhead(w) && Acknowledging(w)
    requires Enabled(w, step) && step.AgentReceive?
    ensures Acknowledging(After(c, w, step))
  {
    var e := w.session.sent[w.down];
    if w.sessionLive {
      assert !RevokedWithin(w.session.sent, w.down);
      CommandCounts(w.agent, e, step.reply);
    } else {
      CommandFails(w.agent, e, step.reply);
    }
  }

  lemma SessionAcknowledges(c: Config, w: World, step: Step)
    requires Inv(c, w) && Acknowledging(w) && Enabled(w, step)
    requires step.SessionReceive? || step.SessionOperator? || step.SessionForward?
    ensures Acknowledging(After(c, w, step))
  {
    HandlerExtends(c, w, step);
    var longer := After(c, w, step).session.sent;
    assert forall k :: 0 <= k < |w.session.sent| ==> w.session.sent[k] == longer[k];
  }

  lemma AcknowledgingStep(c: Config, w: World, step: Step)
    requires Inv(c, w) && RunsAhead(w) && Acknowledging(w)
    ensures Acknowledging(After(c, w, step))
  {
    if Enabled(w, step) {
      if step.AgentReceive? {
        ReceiveAcknowledges(c, w, step);
      } else if step.AgentTimeout? {
        TimeoutCounts(w.agent, step.snapshot, c.scale, w.now, w.sessionLive);
      } else if step.SessionReceive? || step.SessionOperator? || step.SessionForward? {
        SessionAcknowledges(c, w, step);
      }
    }
  }

  lemma {:induction false} AcknowledgingRun(c: Config, w: World, steps: seq<Step>)
    requires Inv(c, w) && RunsAhead(w) && Acknowledging(w)
    ensures Acknowledging(Run(c, w, steps))
    decreases steps
  {
    if steps != [] {
      AcknowledgingStep(c, w, steps[0]);
      StepRunsAhead(c, w, steps[0]);
      AcknowledgingRun(c, After(c, w, steps[0]), steps[1..]);
    }
  }

  /** Over every run, a live agent has acknowledged exactly the commands delivered to it, once
      each and in order, and while the session lives its cursor is the number of messages the
      agent has sent, not of commands it applied. */
  lemma AcknowledgesInOrder(
      c: Config, now: int, agentId: string, version: nat, steps: seq<Step>)
    ensures Acknowledging(Run(c, Start(now, agentId, version), steps))
  {
    var w := Start(now, agentId, version);
    StartHolds(c, now, agentId, version);
    assert Acked(w.agent.sent, 1) == Acked(w.agent.sent, 0);
    AcknowledgingRun(c, w, steps);
  }
}
