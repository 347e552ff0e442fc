/** Progress under any interleaving: while every refresh exchange is over before the lease it
    renews expires, the agent never loses its authority, and only then. */
module PunctualRuns {
  import opened Wrappers
  import opened Control
  import opened ControllerSession
  import opened LeaseAgent
  import opened LeaseProtocol
  import opened LeaseSafety
  import opened RefreshLoop

  /** Neither end is stopped and nobody revokes; forwarded commands, credentials, snapshots,
      extra timeouts, duplicate approvals and clock ticks may come at any point. */
  predicate Undisturbed(steps: seq<Step>) {
    forall k :: 0 <= k < |steps| ==> !Disturbs(steps[k])
  }

  predicate Disturbs(step: Step) { IsRevocation(step) || step.SessionStop? || step.AgentStop? }

  /** A refresh exchange is under way: due and not asked for, asked and not read by the
      controller, or answered and not read by the agent. */
  predicate Owed(c: Config, w: World)
    requires w.down <= |w.session.sent| && w.up <= |w.agent.sent|
  {
    RefreshDue(w.agent, c.scale, w.now) || RequestsInFlight(w) > 0 || LeasesInFlight(w) > 0
  }

  /** If an exchange is under way the lease it renews is still valid. */
  predicate Punctual(c: Config, w: World) {
    w.down <= |w.session.sent| && w.up <= |w.agent.sent| && w.agent.lease.Some? && Owed(c, w) ==>
      w.now < w.agent.lease.value.expiresAt
  }

  ghost predicate PunctualAt(c: Config, w: World, steps: seq<Step>, n: nat)
    requires n <= |steps|
  {
    Punctual(c, Run(c, w, steps[..n]))
  }

  /** Whoever holds a lease is authorised by it now. */
  predicate HolderAuthorised(w: World) { w.agent.lease.Some? ==> w.agent.state.AuthorisedAt(w.now) }

  ghost predicate AuthorisedThen(c: Config, w: World, steps: seq<Step>, n: nat)
    requires n <= |steps|
  {
    HolderAuthorised(Run(c, w, steps[..n]))
  }

  predicate NoRevokeSent(sent: seq<Envelope>) {
    forall k :: 0 <= k < |sent| ==> !sent[k].payload.LeaseRevoke?
  }

  /** Both ends are up, every request read was answered, and every lease installed and not
      asked about is unmarked. */
  predicate Steady(c: Config, w: World) {
    && Loop(c, w) && w.sessionLive && w.agentLive && w.up > 0
    && NoRevokeSent(w.session.sent)
    && (w.agent.lease.Some? ==> w.agent.state == Held(w.agent.lease.value))
    && (w.session.lease.Some? ==>
          LeasesIn(w.session.sent, |w.session.sent|) == 1 + RequestsIn(w.agent.sent, w.up))
    && LeasesIn(w.session.sent, w.down) == |w.agent.asked| + (if Unmarked(w.agent) then 1 else 0)
  }

  /** With nothing under way the lease was not yet due, and due comes before expiry. */
  lemma SteadyIsAuthorised(c: Config, w: World)
    requires Steady(c, w) && RefreshOffset(c.policy.leaseTtl, c.scale) < c.policy.leaseTtl
    ensures Punctual(c, w) <==> HolderAuthorised(w)
  {
    if w.agent.lease.Some? && !Owed(c, w) {
      OneInFlight(c, w);
      LeasesMonotone(w.session.sent, w.down, |w.session.sent|);
      assert Unmarked(w.agent);
      var k := LastLeaseFound(w.session.sent, w.down);
      assert StampedBy(c.policy, w.session.sent[k], w.now);
    }
  }

  // ---- What keeps a steady world steady ----

  lemma SessionAnswers(c: Config, w: World, step: Step)
    requires Steady(c, w) && HonestConfig(c) && Enabled(w, step) && !Disturbs(step)
    requires step.SessionReceive? || step.SessionOperator? || step.SessionForward?
    ensures var v := After(c, w, step);
      && v.sessionLive && NoRevokeSent(v.session.sent)
      && |w.session.sent| <= |v.session.sent| && v.up <= |v.agent.sent|
      && (v.session.lease.Some? ==>
            LeasesIn(v.session.sent, |v.session.sent|) == 1 + RequestsIn(v.agent.sent, v.up))
      && LeasesIn(v.session.sent, w.down) == LeasesIn(w.session.sent, w.down)
  {
    HandlerCounts(c, w, step);
    NeverTurnedAway(c, w);
    if step.SessionOperator? && !w.session.approval.Accepted? {
      var s := w.session.(approval := Accepted);
      GrantSent(s, c.policy, w.now, step.id, step.creds);
      GrantRevokesNothing(s, c.policy, w.now, step.id, step.creds);
      LeasesMonotone(w.session.sent, w.down, |w.session.sent|);
      RequestsMonotone(w.agent.sent, w.up, |w.agent.sent|);
    }
  }

  lemma GrantRevokesNothing(s: Session, p: Policy, now: int, id: int, creds: seq<string>)
    requires s.cmdSeq == Cap(|s.sent|) && NoRevokeSent(s.sent)
    ensures NoRevokeSent(IssueInitial(s, p, now, id, creds, true).session.sent)
  {
    var lease := IssuedLease(s, p, now, id);
    var r := PushCommand(s.(lease := Some(lease)), LeaseGrant(lease), true);
    CredentialsExtend(r.session, creds, true);
    var sent := PushCredentials(r.session, creds, true).session.sent;
    assert forall k :: 0 <= k < |r.session.sent| ==> sent[k] == r.session.sent[k];
  }

  lemma SessionStaysSteady(c: Config, w: World, step: Step)
    requires Steady(c, w) && HonestConfig(c) && Enabled(w, step) && !Disturbs(step)
    requires step.SessionReceive? || step.SessionOperator? || step.SessionForward?
    ensures Steady(c, After(c, w, step))
  {
    LoopStep(c, w, step);
    SessionAnswers(c, w, step);
  }

  lemma TopStaysSteady(c: Config, w: World)
    requires Steady(c, w) && Enabled(w, AgentTop) && HolderAuthorised(w)
    ensures Steady(c, After(c, w, AgentTop))
  {
    LoopStep(c, w, AgentTop);
  }

  lemma TimeoutStaysSteady(c: Config, w: World, step: Step)
    requires Steady(c, w) && Enabled(w, step) && step.AgentTimeout?
    ensures Steady(c, After(c, w, step))
  {
    LoopStep(c, w, step);
    var v := After(c, w, step);
    assert w.agent.sent == v.agent.sent[..|w.agent.sent|];
    RequestsOfPrefix(w.agent.sent, v.agent.sent, w.up);
  }

  lemma CommandAnswered(a: Agent, e: Envelope, reply: Option<Telemetry>)
    ensures !e.payload.LeaseRevoke? ==> OnReceive(a, e, reply, true).error.None?
  {
  }

  lemma ReceiveStaysSteady(c: Config, w: World, step: Step)
    requires Steady(c, w) && Enabled(w, step) && step.AgentReceive? && |w.session.sent| <= U64_MAX
    ensures Steady(c, After(c, w, step))
  {
    LoopStep(c, w, step);
    var v, sent := After(c, w, step), w.session.sent;
    CommandEffect(w.agent, sent[w.down], step.reply, true);
    CommandAnswered(w.agent, sent[w.down], step.reply);
    assert w.agent.sent == v.agent.sent[..|w.agent.sent|];
    RequestsOfPrefix(w.agent.sent, v.agent.sent, w.up);
    if sent[w.down].payload.IsLease() {
      OneInFlight(c, w);
      LeaseAhead(sent, w.down, w.down, |sent|);
      NewNumber(c, w);
    }
  }

  /** Below saturation a lease about to be installed carries a new number. */
  lemma NewNumber(c: Config, w: World)
    requires Inv(c, w) && w.down < |w.session.sent| <= U64_MAX && w.session.sent[w.down].payload.IsLease()
    ensures w.agent.lease.Some? ==> w.agent.lease.value.issuedSeq < w.session.sent[w.down].payload.lease.issuedSeq
  {
    assert StampedBy(c.policy, w.session.sent[w.down], w.now);
    if w.agent.lease.Some? {
      var k := LastLeaseFound(w.session.sent, w.down);
      assert StampedBy(c.policy, w.session.sent[k], w.now);
    }
  }

  lemma StepStaysSteady(c: Config, w: World, step: Step)
    requires Steady(c, w) && HonestConfig(c) && !Disturbs(step)
    requires HolderAuthorised(w) && |w.session.sent| <= U64_MAX
    ensures Steady(c, After(c, w, step))
  {
    if Enabled(w, step) {
      match step
      case Tick(_) => LoopStep(c, w, step);
      case SessionReceive(_, _, _) => SessionStaysSteady(c, w, step);
      case SessionOperator(_, _, _) => SessionStaysSteady(c, w, step);
      case SessionForward(_) => SessionStaysSteady(c, w, step);
      case AgentTop => TopStaysSteady(c, w);
      case AgentTimeout(_) => TimeoutStaysSteady(c, w, step);
      case AgentReceive(_) => ReceiveStaysSteady(c, w, step);
      case _ =>
    }
  }

  // ---- Whole runs ----

  lemma RunPrefix(c: Config, w: World, steps: seq<Step>, n: nat)
    requires n < |steps|
    ensures Run(c, w, steps[..n + 1]) == After(c, Run(c, w, steps[..n]), steps[n])
  {
    assert steps[..n + 1] == steps[..n] + [steps[n]];
    RunAppends(c, w, steps[..n], [steps[n]]);
    assert [steps[n]][1..] == [];
    assert Run(c, Run(c, w, steps[..n]), [steps[n]]) == After(c, Run(c, w, steps[..n]), steps[n]);
  }

  /** While the run has been punctual, it is steady and the holder authorised. */
  lemma {:induction false} SteadyUntil(c: Config, w: World, steps: seq<Step>, n: nat)
    requires Steady(c, w) && HonestConfig(c) && Undisturbed(steps) && n <= |steps|
    requires RefreshOffset(c.policy.leaseTtl, c.scale) < c.policy.leaseTtl
    requires |Run(c, w, steps).session.sent| <= U64_MAX
    requires forall k :: 0 <= k < n ==> PunctualAt(c, w, steps, k)
    ensures Steady(c, Run(c, w, steps[..n]))
  {
    if n > 0 {
      SteadyUntil(c, w, steps, n - 1);
      var v := Run(c, w, steps[..n - 1]);
      assert PunctualAt(c, w, steps, n - 1);
      SteadyIsAuthorised(c, v);
      assert steps == steps[..n - 1] + steps[n - 1..];
      RunAppends(c, w, steps[..n - 1], steps[n - 1..]);
      LogsGrow(c, v, steps[n - 1..]);
      assert !Disturbs(steps[n - 1]);
      StepStaysSteady(c, v, steps[n - 1]);
      RunPrefix(c, w, steps, n - 1);
    } else {
      assert steps[..0] == [];
    }
  }

  /** From any steady state, over every undisturbed run of an honest configuration whose
      refresh falls due before expiry: whoever holds a lease is authorised at every point if
      and only if every exchange ends before the lease it renews expires. */
  lemma AuthorisedThroughoutIff(c: Config, w: World, steps: seq<Step>)
    requires Steady(c, w) && HonestConfig(c) && Undisturbed(steps)
    requires RefreshOffset(c.policy.leaseTtl, c.scale) < c.policy.leaseTtl
    requires |Run(c, w, steps).session.sent| <= U64_MAX
    ensures (forall n :: 0 <= n <= |steps| ==> AuthorisedThen(c, w, steps, n)) <==>
      (forall n :: 0 <= n <= |steps| ==> PunctualAt(c, w, steps, n))
  {
    if forall n :: 0 <= n <= |steps| ==> AuthorisedThen(c, w, steps, n) {
      forall n | 0 <= n <= |steps| ensures PunctualAt(c, w, steps, n) {
        assert AuthorisedThen(c, w, steps, n);
        RunKeeps(c, w, steps[..n]);
        AuthorisedIsPunctual(c, Run(c, w, steps[..n]));
      }
    }
    if forall n :: 0 <= n <= |steps| ==> PunctualAt(c, w, steps, n) {
      forall n | 0 <= n <= |steps| ensures AuthorisedThen(c, w, steps, n) {
        SteadyUntil(c, w, steps, n);
        assert PunctualAt(c, w, steps, n);
        SteadyIsAuthorised(c, Run(c, w, steps[..n]));
      }
    }
  }

  lemma AuthorisedIsPunctual(c: Config, w: World)
    requires Inv(c, w) && HolderAuthorised(w)
    ensures Punctual(c, w)
  {
  }

  /** An admitted agent is steady from its registration on. */
  lemma RegisteredIsSteady(
      c: Config, now: int, agentId: string, a: Admission, id: int, creds: seq<string>)
    requires !a.Refused()
    ensures Steady(c, After(c, Start(now, agentId, PROTOCOL_VERSION), SessionReceive(a, id, creds)))
  {
    var w := Start(now, agentId, PROTOCOL_VERSION);
    var step := SessionReceive(a, id, creds);
    StartHolds(c, now, agentId, PROTOCOL_VERSION);
    assert Loop(c, w);
    LoopStep(c, w, step);
    HandlerCounts(c, w, step);
    if a.Answer().Accepted? {
      var s := w.session.(approval := Accepted, agentId := Some(agentId));
      GrantSent(s, c.policy, w.now, id, creds);
      GrantRevokesNothing(s, c.policy, w.now, id, creds);
    }
  }

  /** From an admitted registration on, over every interleaving in which neither end is
      stopped and nobody revokes: the agent is authorised whenever it holds a lease if and
      only if every refresh exchange ends before the lease it renews expires. */
  lemma AuthorityLastsIff(
      c: Config, now: int, agentId: string, a: Admission, id: int, creds: seq<string>, steps: seq<Step>)
    requires HonestConfig(c) && RefreshOffset(c.policy.leaseTtl, c.scale) < c.policy.leaseTtl
    requires !a.Refused() && Undisturbed(steps)
    requires var w := After(c, Start(now, agentId, PROTOCOL_VERSION), SessionReceive(a, id, creds));
      |Run(c, w, steps).session.sent| <= U64_MAX
    ensures var w := After(c, Start(now, agentId, PROTOCOL_VERSION), SessionReceive(a, id, creds));
      (forall n :: 0 <= n <= |steps| ==> AuthorisedThen(c, w, steps, n)) <==>
      (forall n :: 0 <= n <= |steps| ==> PunctualAt(c, w, steps, n))
  {
    RegisteredIsSteady(c, now, agentId, a, id, creds);
    AuthorisedThroughoutIff(
      c, After(c, Start(now, agentId, PROTOCOL_VERSION), SessionReceive(a, id, creds)), steps);
  }
}
