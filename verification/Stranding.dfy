/** A refresh request turned away is never repeated: the agent's authority ends with the lease
    it holds. */
module Stranding {
  import opened Wrappers
  import opened Control
  import opened ControllerSession
  import opened LeaseAgent
  import opened LeaseProtocol
  import opened LeaseSafety
  import opened RefreshLoop

  predicate RevokeBetween(sent: seq<Envelope>, from: nat, to: nat)
    requires to <= |sent|
  {
    exists j :: from <= j < to && sent[j].payload.LeaseRevoke?
  }

  /** The agent waits for an answer that will not come: its marker is set, nothing it sent
      will be answered with a lease, and no lease can reach it before a revocation. */
  predicate Stranded(w: World, lease: Lease) {
    && w.agent.lease == Some(lease) && w.up > 0 && w.down <= |w.session.sent|
    && (w.agentLive ==>
          && w.agent.requestedFor == Some(lease.issuedSeq)
          && (forall k :: w.up <= k < |w.agent.sent| ==> !w.agent.sent[k].LeaseRefreshRequest?)
          && (forall k :: w.down <= k < |w.session.sent| && w.session.sent[k].payload.IsLease() ==>
                RevokeBetween(w.session.sent, w.down, k))
          && (w.sessionLive ==>
                || w.session.approval.Accepted?
                || RevokeBetween(w.session.sent, w.down, |w.session.sent|)))
  }

  lemma StrandedSession(c: Config, w: World, step: Step, lease: Lease)
    requires Inv(c, w) && Stranded(w, lease) && w.agentLive && Enabled(w, step)
    requires step.SessionReceive? || step.SessionOperator? || step.SessionForward?
    ensures Stranded(After(c, w, step), lease)
  {
    HandlerExtends(c, w, step);
    var sent, longer := w.session.sent, After(c, w, step).session.sent;
    assert forall k :: 0 <= k < |sent| ==> sent[k] == longer[k];
    if RevokeBetween(sent, w.down, |sent|) {
      var j :| w.down <= j < |sent| && sent[j].payload.LeaseRevoke?;
      assert longer[j].payload.LeaseRevoke?;
      assert forall k :: |sent| <= k <= |longer| ==> RevokeBetween(longer, w.down, k);
    } else if step.SessionOperator? && step.event.ApprovalRevoked? {
      assert longer[|sent|].payload.LeaseRevoke?;
    }
    forall k | w.down <= k < |sent| && longer[k].payload.IsLease()
      ensures RevokeBetween(longer, w.down, k)
    {
      var j :| w.down <= j < k && sent[j].payload.LeaseRevoke?;
      assert longer[j].payload.LeaseRevoke?;
    }
  }

  lemma StrandedAgent(c: Config, w: World, step: Step, lease: Lease)
    requires Inv(c, w) && Stranded(w, lease) && w.agentLive && Enabled(w, step)
    requires step.AgentTimeout? || step.AgentReceive?
    ensures Stranded(After(c, w, step), lease)
  {
    var v := After(c, w, step);
    if step.AgentReceive? {
      var sent := w.session.sent;
      CommandEffect(w.agent, sent[w.down], step.reply, w.sessionLive);
      if v.agentLive {
        forall k | v.down <= k <= |sent| && RevokeBetween(sent, w.down, k)
          ensures RevokeBetween(sent, v.down, k)
        {
          var j :| w.down <= j < k && sent[j].payload.LeaseRevoke?;
          assert j != w.down;
        }
      }
    }
  }

  lemma {:induction false} StrandedRun(c: Config, w: World, steps: seq<Step>, lease: Lease)
    requires Inv(c, w) && Stranded(w, lease)
    ensures Stranded(Run(c, w, steps), lease)
    decreases steps
  {
    if steps != [] {
      var step := steps[0];
      if Enabled(w, step) && w.agentLive {
        if step.SessionReceive? || step.SessionOperator? || step.SessionForward? {
          StrandedSession(c, w, step, lease);
        } else if step.AgentTimeout? || step.AgentReceive? {
          StrandedAgent(c, w, step, lease);
        }
      } else if Enabled(w, step) && (step.SessionReceive? || step.SessionOperator? || step.SessionForward?) {
        HandlerExtends(c, w, step);
      }
      StepKeeps(c, w, step);
      StrandedRun(c, After(c, w, step), steps[1..], lease);
    }
  }

  /** After one request is turned away the agent never holds another lease on this
      connection: whatever follows, its authority ends when the current lease expires. */
  lemma TurnedAwayIsFinal(
      c: Config, now: int, agentId: string, version: nat, before: seq<Step>, a: Admission,
      id: int, creds: seq<string>, after: seq<Step>, t: int)
    requires NoRevocation(before) && TurnedAway(c, Run(c, Start(now, agentId, version), before))
    ensures var w := Run(c, Start(now, agentId, version), before);
      var v := Run(c, After(c, w, SessionReceive(a, id, creds)), after);
      && w.agent.lease.Some? && v.agent.lease == w.agent.lease
      && (t >= w.agent.lease.value.expiresAt ==> !v.agent.state.AuthorisedAt(t))
  {
    var start := Start(now, agentId, version);
    var w := Run(c, start, before);
    var step := SessionReceive(a, id, creds);
    StartHolds(c, now, agentId, version);
    LoopRun(c, start, before);
    OneInFlight(c, w);
    RequestAhead(w.agent.sent, w.up, w.up, |w.agent.sent|);
    assert Due(c, w, w.up);
    var u := After(c, w, step);
    forall k | u.up <= k < |u.agent.sent| ensures !u.agent.sent[k].LeaseRefreshRequest? {
      if u.agent.sent[k].LeaseRefreshRequest? {
        RequestAhead(w.agent.sent, u.up, k, |w.agent.sent|);
      }
    }
    forall k | u.down <= k < |u.session.sent| ensures !u.session.sent[k].payload.IsLease() {
      if u.session.sent[k].payload.IsLease() {
        LeaseAhead(w.session.sent, w.down, k, |w.session.sent|);
      }
    }
    LeasesMonotone(w.session.sent, w.down, |w.session.sent|);
    StepKeeps(c, w, step);
    StrandedRun(c, u, after, w.agent.lease.value);
    RunKeeps(c, u, after);
  }
}
