/** What the controller's session answers over every run: which registrations get a lease and
    credentials, what an approval sends, and the four answers to a refresh request. */
module SessionLaws {
  import opened Wrappers
  import opened Control
  import opened ControllerSession
  import opened LeaseAgent
  import opened LeaseProtocol
  import opened LeaseSafety

  // ---- What a grant puts on the wire ----

  /** An open transport receives exactly the credentials, in order; a closed one nothing. */
  lemma {:induction false} CredentialsInOrder(s: Session, creds: seq<string>, open: bool)
    ensures var sent := PushCredentials(s, creds, open).session.sent;
      && |sent| == |s.sent| + (if open then |creds| else 0) && sent[..|s.sent|] == s.sent
      && (open ==> forall i :: 0 <= i < |creds| ==> sent[|s.sent| + i].payload == PushCredential(creds[i]))
    decreases creds
  {
    if creds != [] && open {
      var t := PushCommand(s, PushCredential(creds[0]), open).session;
      CredentialsInOrder(t, creds[1..], open);
      var sent := PushCredentials(t, creds[1..], open).session.sent;
      assert sent[..|t.sent|] == t.sent;
      forall i | 0 <= i < |creds| ensures sent[|s.sent| + i].payload == PushCredential(creds[i]) {
        if i == 0 {
          assert sent[..|t.sent|][|s.sent|] == t.sent[|s.sent|];
        } else {
          assert creds[i] == creds[1..][i - 1];
        }
      }
    }
  }

  /** The messages of a grant: the lease, then every credential, in order. */
  predicate GrantSentAfter(
      before: seq<Envelope>, after: seq<Envelope>, lease: Lease, creds: seq<string>)
  {
    && |after| == |before| + 1 + |creds| && after[..|before|] == before
    && after[|before|] == Envelope(lease.issuedSeq, LeaseGrant(lease))
    && (forall i :: 0 <= i < |creds| ==> after[|before| + 1 + i].payload == PushCredential(creds[i]))
  }

  lemma InitialSends(s: Session, p: Policy, now: int, id: int, creds: seq<string>)
    requires s.cmdSeq == Cap(|s.sent|) && s.agentId.Some?
    ensures var r := IssueInitial(s, p, now, id, creds, true);
      var lease := Lease(id, s.agentId.value, now, now + p.leaseTtl, Cap(|s.sent| + 1));
      && r.error.None? && r.session.approval == s.approval && r.session.agentId == s.agentId
      && r.session.lease == Some(lease) && GrantSentAfter(s.sent, r.session.sent, lease, creds)
  {
    var lease := IssuedLease(s, p, now, id);
    var r := PushCommand(s.(lease := Some(lease)), LeaseGrant(lease), true);
    CredentialsInOrder(r.session, creds, true);
    CredentialsExtend(r.session, creds, true);
    var sent := PushCredentials(r.session, creds, true).session.sent;
    assert sent[..|r.session.sent|][|s.sent|] == Envelope(lease.issuedSeq, LeaseGrant(lease));
    assert sent[..|s.sent|] == sent[..|r.session.sent|][..|s.sent|];
  }

  lemma InitialLost(s: Session, p: Policy, now: int, id: int, creds: seq<string>)
    ensures var r := IssueInitial(s, p, now, id, creds, false);
      r.error.Some? && r.session.sent == s.sent && r.session.approval == s.approval && r.session.agentId == s.agentId
  {
  }

  // ---- Registration ----

  predicate Forwards(step: Step) { step.SessionForward? && step.command.PushCredential? }

  predicate NoCredentialForwarded(steps: seq<Step>) {
    forall k :: 0 <= k < |steps| ==> !Forwards(steps[k])
  }

  predicate NoLease(sent: seq<Envelope>) {
    forall k :: 0 <= k < |sent| ==> !sent[k].payload.LeaseGrant? && !sent[k].payload.LeaseRefresh?
  }

  predicate NoCredential(sent: seq<Envelope>) {
    forall k :: 0 <= k < |sent| ==> !sent[k].payload.PushCredential?
  }

  lemma {:induction false} DeadSessionSilent(c: Config, w: World, steps: seq<Step>)
    requires !w.sessionLive
    ensures Run(c, w, steps).session == w.session && !Run(c, w, steps).sessionLive
    decreases steps
  {
    if steps != [] { DeadSessionSilent(c, After(c, w, steps[0]), steps[1..]); }
  }

  /** A registered session that is not approved and has sent no lease. */
  predicate Silent(w: World) {
    w.up > 0 && !w.session.approval.Accepted? && NoLease(w.session.sent)
  }

  lemma UnapprovedStepSilent(c: Config, w: World, step: Step)
    requires Inv(c, w) && Silent(w) && NoGrant([step])
    ensures var v := After(c, w, step);
      Silent(v) && (NoCredential(w.session.sent) && !Forwards(step) ==> NoCredential(v.session.sent))
  {
    assert !([step][0].SessionOperator? && [step][0].event.ApprovalGranted?);
  }

  lemma {:induction false} UnapprovedSilent(c: Config, w: World, steps: seq<Step>)
    requires Inv(c, w) && Silent(w) && NoGrant(steps)
    ensures var v := Run(c, w, steps);
      && NoLease(v.session.sent)
      && (NoCredential(w.session.sent) && NoCredentialForwarded(steps) ==> NoCredential(v.session.sent))
    decreases steps
  {
    if steps != [] {
      assert NoGrant([steps[0]]) by { assert !(steps[0].SessionOperator? && steps[0].event.ApprovalGranted?); }
      UnapprovedStepSilent(c, w, steps[0]);
      StepKeeps(c, w, steps[0]);
      UnapprovedSilent(c, After(c, w, steps[0]), steps[1..]);
      assert NoCredentialForwarded(steps) ==> !Forwards(steps[0]) && NoCredentialForwarded(steps[1..]);
    }
  }

  /** The registration itself, whenever the session reads it. */
  lemma RegistrationAnswered(
      c: Config, now: int, agentId: string, version: nat, before: seq<Step>, a: Admission, id: int, creds: seq<string>)
    requires var w := Run(c, Start(now, agentId, version), before); w.sessionLive && w.up == 0
    ensures var w := Run(c, Start(now, agentId, version), before);
      var u := After(c, w, SessionReceive(a, id, creds));
      && u.up == 1
      && (if version != 1 || !a.versionOk || (a.stored.Some? && !a.hasKey) then
            !u.sessionLive && u.session.sent == []
          else
            var accepted := a.stored == None || a.stored == Some(Accepted);
            && u.session.approval == (if a.stored.Some? then a.stored.value else Accepted)
            && u.session.agentId == Some(agentId)
            && (accepted && w.agentLive ==>
                  && u.sessionLive
                  && GrantSentAfter([], u.session.sent, Lease(id, agentId, w.now, w.now + c.policy.leaseTtl, 1), creds))
            && (accepted && !w.agentLive ==> !u.sessionLive && u.session.sent == [])
            && (!accepted ==> u.sessionLive && u.session.sent == []))
  {
    var w := Run(c, Start(now, agentId, version), before);
    Reached(c, now, agentId, version, before);
    FirstMessage(c, Start(now, agentId, version), before);
    var s := w.session.(approval := a.Answer(), agentId := Some(agentId));
    if w.agentLive {
      InitialSends(s, c.policy, w.now, id, creds);
    } else {
      InitialLost(s, c.policy, w.now, id, creds);
    }
  }

  lemma FirstMessageStep(c: Config, w: World, step: Step)
    requires |w.agent.sent| > 0
    ensures |After(c, w, step).agent.sent| > 0 && After(c, w, step).agent.sent[0] == w.agent.sent[0]
  {
    if Enabled(w, step) {
      match step
      case AgentTimeout(snapshot) => TimeoutEffect(w.agent, snapshot, c.scale, w.now, w.sessionLive);
        assert w.agent.sent[0] == After(c, w, step).agent.sent[..|w.agent.sent|][0];
      case AgentReceive(reply) => CommandEffect(w.agent, w.session.sent[w.down], reply, w.sessionLive);
        assert w.agent.sent[0] == After(c, w, step).agent.sent[..|w.agent.sent|][0];
      case _ =>
    }
  }

  lemma {:induction false} FirstMessage(c: Config, w: World, steps: seq<Step>)
    requires |w.agent.sent| > 0
    ensures |Run(c, w, steps).agent.sent| > 0 && Run(c, w, steps).agent.sent[0] == w.agent.sent[0]
    decreases steps
  {
    if steps != [] {
      FirstMessageStep(c, w, steps[0]);
      FirstMessage(c, After(c, w, steps[0]), steps[1..]);
    }
  }

  /** Over every run, as long as the operator grants nothing: the agent is sent a lease if and
      only if it was still there when its registration was read, and that named version 1, a
      compatible binary, and either no approval is stored or a key came with one that is
      accepted. Otherwise it is sent no credential either, unless a handler forwards one. A
      refused registration ends the session with nothing ever sent. */
  lemma RegistrationDecides(
      c: Config, now: int, agentId: string, version: nat, before: seq<Step>, a: Admission, id: int,
      creds: seq<string>, after: seq<Step>)
    requires var w := Run(c, Start(now, agentId, version), before); w.sessionLive && w.up == 0
    requires NoGrant(after)
    ensures var w := Run(c, Start(now, agentId, version), before);
      var v := Run(c, After(c, w, SessionReceive(a, id, creds)), after);
      var admitted := w.agentLive && version == 1 && a.versionOk
                      && (a.stored == None || (a.hasKey && a.stored == Some(Accepted)));
      && (!NoLease(v.session.sent) <==> admitted)
      && (!admitted && NoCredentialForwarded(after) ==> NoCredential(v.session.sent))
      && (version != 1 || !a.versionOk || (a.stored.Some? && !a.hasKey) ==>
            !v.sessionLive && v.session.sent == [])
  {
    var start := Start(now, agentId, version);
    var w := Run(c, start, before);
    var step := SessionReceive(a, id, creds);
    var u := After(c, w, step);
    RegistrationAnswered(c, now, agentId, version, before, a, id, creds);
    Reached(c, now, agentId, version, before);
    StepKeeps(c, w, step);
    if !u.sessionLive {
      DeadSessionSilent(c, u, after);
    } else if u.session.approval.Accepted? {
      LogsGrow(c, u, after);
      var v := Run(c, u, after);
      assert v.session.sent[..|u.session.sent|][0] == v.session.sent[0];
      assert v.session.sent[0].payload.LeaseGrant?;
    } else {
      UnapprovedSilent(c, u, after);
    }
  }

  // ---- Approval by the operator ----

  /** Over every run, an approval of a session that is not approved grants a lease, now, under
      the id given, and sends every credential; of one that is, it changes nothing. */
  lemma ApprovalGrants(
      c: Config, now: int, agentId: string, version: nat, before: seq<Step>, id: int, creds: seq<string>)
    requires var w := Run(c, Start(now, agentId, version), before);
      w.sessionLive && w.agentLive && w.session.agentId.Some?
    ensures var w := Run(c, Start(now, agentId, version), before);
      var v := After(c, w, SessionOperator(ApprovalGranted, id, creds));
      if w.session.approval == Accepted then v == w
      else
        var lease := Lease(id, w.session.agentId.value, w.now, w.now + c.policy.leaseTtl, Cap(|w.session.sent| + 1));
        && v.sessionLive && v.session.approval == Accepted && v.session.lease == Some(lease)
        && GrantSentAfter(w.session.sent, v.session.sent, lease, creds)
  {
    var w := Run(c, Start(now, agentId, version), before);
    Reached(c, now, agentId, version, before);
    InitialSends(w.session.(approval := Accepted), c.policy, w.now, id, creds);
  }

  // ---- Refresh requests ----

  /** Over every run, a request read by a live session with a listening agent is answered by a
      revocation if the session is not approved; ends the session if it names no current
      lease; gets nothing if it comes sooner than the minimum interval after the lease was
      issued; and otherwise an extension under the same id, issued now. */
  lemma RefreshAnswered(
      c: Config, now: int, agentId: string, version: nat, before: seq<Step>, a: Admission, id: int,
      creds: seq<string>)
    requires var w := Run(c, Start(now, agentId, version), before);
      && w.sessionLive && w.agentLive && w.up < |w.agent.sent| && w.agent.sent[w.up].LeaseRefreshRequest?
    ensures var w := Run(c, Start(now, agentId, version), before);
      var v := After(c, w, SessionReceive(a, id, creds));
      var asked := w.agent.sent[w.up].leaseId;
      var n := Cap(|w.session.sent| + 1);
      if w.session.approval != Accepted then
        && v.sessionLive && v.session.sent == w.session.sent + [Envelope(n, LeaseRevoke("approval revoked"))]
      else if w.session.lease.None? || w.session.lease.value.id != asked then
        !v.sessionLive && v.session == w.session
      else if 0 < c.policy.minRefreshInterval
              && w.now < w.session.lease.value.issuedAt + c.policy.minRefreshInterval then
        v.sessionLive && v.session == w.session
      else
        var lease := Lease(asked, if w.session.agentId.Some? then w.session.agentId.value else "",
                           w.now, w.now + c.policy.leaseTtl, n);
        && v.sessionLive && v.session.lease == Some(lease)
        && v.session.sent == w.session.sent + [Envelope(n, LeaseRefresh(lease))]
  {
    Reached(c, now, agentId, version, before);
  }

  // ---- Names ----

  /** The session knows no other name than the one the agent registered under. */
  predicate Named(w: World, agentId: string) {
    && |w.agent.sent| > 0 && w.agent.sent[0].Register? && w.agent.sent[0].agentId == agentId
    && (w.session.agentId.Some? ==> w.session.agentId.value == agentId)
    && (w.session.agentId.None? ==> w.session.lease.None?)
    && (forall k :: 0 <= k < |w.session.sent| && w.session.sent[k].payload.IsLease() ==>
          w.session.sent[k].payload.lease.agentId == agentId)
  }

  lemma NamedInitial(s: Session, p: Policy, now: int, id: int, creds: seq<string>, open: bool)
    requires s.cmdSeq == Cap(|s.sent|) && s.agentId.Some?
    ensures var r := IssueInitial(s, p, now, id, creds, open).session;
      && r.agentId == s.agentId
      && (forall k :: 0 <= k < |r.sent| && r.sent[k].payload.IsLease() ==>
            (k < |s.sent| && r.sent[k] == s.sent[k]) || r.sent[k].payload.lease.agentId == s.agentId.value)
  {
    if open {
      InitialSends(s, p, now, id, creds);
      var sent := IssueInitial(s, p, now, id, creds, true).session.sent;
      assert forall k :: 0 <= k < |s.sent| ==> sent[..|s.sent|][k] == sent[k];
      forall k | |s.sent| < k < |sent| ensures sent[k].payload.PushCredential? {
        var i := k - |s.sent| - 1;
        assert sent[|s.sent| + 1 + i].payload == PushCredential(creds[i]);
      }
    } else {
      InitialLost(s, p, now, id, creds);
    }
  }

  lemma NamedHandler(c: Config, w: World, step: Step, agentId: string)
    requires Inv(c, w) && Named(w, agentId) && Enabled(w, step)
    requires step.SessionReceive? || step.SessionOperator?
    ensures Named(After(c, w, step), agentId)
  {
    match step
    case SessionReceive(a, id, creds) =>
      var t := w.agent.sent[w.up];
      if t.Register? {
        NamedInitial(w.session.(approval := a.Answer(), agentId := Some(t.agentId)), c.policy, w.now, id, creds,
                     w.agentLive);
      }
    case SessionOperator(ev, id, creds) =>
      NamedInitial(w.session.(approval := Accepted), c.policy, w.now, id, creds, w.agentLive);
  }

  lemma NamedStep(c: Config, w: World, step: Step, agentId: string)
    requires Inv(c, w) && Named(w, agentId)
    ensures Named(After(c, w, step), agentId)
  {
    FirstMessageStep(c, w, step);
    if Enabled(w, step) && (step.SessionReceive? || step.SessionOperator?) {
      NamedHandler(c, w, step, agentId);
    }
  }

  lemma {:induction false} NamedRun(c: Config, w: World, steps: seq<Step>, agentId: string)
    requires Inv(c, w) && Named(w, agentId)
    ensures Named(Run(c, w, steps), agentId)
    decreases steps
  {
    if steps != [] {
      NamedStep(c, w, steps[0], agentId);
      StepKeeps(c, w, steps[0]);
      NamedRun(c, After(c, w, steps[0]), steps[1..], agentId);
    }
  }

  /** Over every run, every lease sent is made out to the agent that registered. */
  lemma LeasesNameTheAgent(
      c: Config, now: int, agentId: string, version: nat, steps: seq<Step>, k: nat)
    requires var sent := Run(c, Start(now, agentId, version), steps).session.sent;
      k < |sent| && sent[k].payload.IsLease()
    ensures Run(c, Start(now, agentId, version), steps).session.sent[k].payload.lease.agentId == agentId
  {
    StartHolds(c, now, agentId, version);
    NamedRun(c, Start(now, agentId, version), steps, agentId);
  }
}
