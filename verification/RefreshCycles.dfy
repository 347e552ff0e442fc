/** Progress: under an honest configuration, an agent whose refreshes are answered in time
    keeps its authority for as long as that goes on. */
module RefreshCycles {
  import opened Wrappers
  import opened Control
  import opened ControllerSession
  import opened LeaseAgent
  import opened LeaseProtocol
  import opened LeaseSafety
  import opened RefreshLoop
  import opened Stranding

  const ADMITTED := Admission(true, None, false)

  const ANY_MESSAGE := SessionReceive(ADMITTED, 1, [])

  /** One lease held by both sides, everything delivered, nothing asked for it yet. */
  predicate Quiet(c: Config, w: World, lease: Lease) {
    && w.sessionLive && w.agentLive && !w.checked
    && w.down == |w.session.sent| && w.up == |w.agent.sent|
    && w.session.approval.Accepted? && w.session.lease == Some(lease)
    && w.session.cmdSeq == |w.session.sent|
    && w.agent.lease == Some(lease) && w.agent.state == Held(lease) && Unmarked(w.agent)
    && lease.issuedSeq <= |w.session.sent| && lease.issuedAt <= w.now
    && lease.expiresAt == lease.issuedAt + c.policy.leaseTtl
  }

  /** Wait, check, ask, be answered, install, and have the acknowledgement read. */
  function Cycle(wait: nat): seq<Step> {
    [Tick(wait), AgentTop, AgentTimeout(false), ANY_MESSAGE, AgentTop, AgentReceive(None), ANY_MESSAGE]
  }

  /** The wait reaches the refresh deadline and not the expiry. */
  predicate InTime(c: Config, at: int, lease: Lease) {
    RefreshDeadline(lease, c.scale) <= at < lease.expiresAt
  }

  function Extended(c: Config, w: World, at: int, lease: Lease): Lease {
    Lease(lease.id, if w.session.agentId.Some? then w.session.agentId.value else "", at,
          at + c.policy.leaseTtl, Next(|w.session.sent|))
  }

  lemma CycleAsks(c: Config, w: World, wait: nat, lease: Lease) returns (v: World)
    requires Quiet(c, w, lease) && InTime(c, w.now + wait, lease)
    ensures v == After(c, After(c, After(c, w, Tick(wait)), AgentTop), AgentTimeout(false))
    ensures v == w.(now := w.now + wait, agent := v.agent)
    ensures v.agent == w.agent.(cursor := v.agent.cursor, sent := w.agent.sent + [LeaseRefreshRequest(lease.id)],
      requestedFor := Some(lease.issuedSeq), asked := w.agent.asked + [lease.issuedSeq])
  {
    var ticked := After(c, w, Tick(wait));
    var checked := After(c, ticked, AgentTop);
    assert checked == ticked.(checked := true);
    v := After(c, checked, AgentTimeout(false));
  }

  lemma CycleAnswers(c: Config, w: World, v: World, lease: Lease)
    requires Quiet(c, w, lease) && HonestConfig(c) && c.policy.leaseTtl > 0
    requires v.now >= w.now && InTime(c, v.now, lease)
    requires v == w.(now := v.now, agent := v.agent)
    requires v.agent.sent == w.agent.sent + [LeaseRefreshRequest(lease.id)]
    ensures var next := Extended(c, w, v.now, lease);
      var u := After(c, v, ANY_MESSAGE);
      && u == v.(session := u.session, up := v.up + 1)
      && u.session == w.session.(cmdSeq := next.issuedSeq, lease := Some(next),
           sent := w.session.sent + [Envelope(next.issuedSeq, LeaseRefresh(next))])
  {
    assert v.agent.sent[v.up] == LeaseRefreshRequest(lease.id);
    assert !RateLimited(lease, c.policy, v.now);
  }

  lemma CycleInstalls(c: Config, u: World, lease: Lease, next: Lease)
    requires u.sessionLive && u.agentLive && !u.checked && u.down < |u.session.sent|
    requires u.session.sent[u.down] == Envelope(next.issuedSeq, LeaseRefresh(next))
    requires u.agent.lease == Some(lease) && lease.ValidAt(u.now)
    ensures var t := After(c, After(c, u, AgentTop), AgentReceive(None));
      && t == u.(agent := t.agent, down := u.down + 1)
      && t.agent.lease == Some(next) && t.agent.state == Held(next)
      && t.agent.requestedFor == (if next.issuedSeq != lease.issuedSeq then None else u.agent.requestedFor)
      && t.agent.sent == u.agent.sent + [Ack(next.issuedSeq)]
  {
    var checked := After(c, u, AgentTop);
    assert checked == u.(checked := true);
  }

  lemma AckRead(c: Config, t: World)
    requires t.sessionLive && t.up < |t.agent.sent| && t.agent.sent[t.up].Ack?
    ensures After(c, t, ANY_MESSAGE) == t.(up := t.up + 1)
  {
  }

  /** What one timely cycle leaves behind; the marker is cleared if the number moved. */
  lemma CycleRuns(c: Config, w: World, wait: nat, lease: Lease)
    requires Quiet(c, w, lease) && HonestConfig(c) && c.policy.leaseTtl > 0 && InTime(c, w.now + wait, lease)
    ensures var next := Extended(c, w, w.now + wait, lease);
      var v := Run(c, w, Cycle(wait));
      && v.sessionLive && v.agentLive && !v.checked && v.now == w.now + wait
      && v.down == |v.session.sent| == |w.session.sent| + 1
      && v.up == |v.agent.sent| == |w.agent.sent| + 2
      && v.session.approval.Accepted? && v.session.lease == Some(next)
      && v.session.cmdSeq == next.issuedSeq
      && v.agent.lease == Some(next) && v.agent.state == Held(next)
      && v.agent.requestedFor == if next.issuedSeq != lease.issuedSeq then None else Some(lease.issuedSeq)
  {
    var next := Extended(c, w, w.now + wait, lease);
    var asked := CycleAsks(c, w, wait, lease);
    CycleAnswers(c, w, asked, lease);
    var answered := After(c, asked, ANY_MESSAGE);
    CycleInstalls(c, answered, lease, next);
    var installed := After(c, After(c, answered, AgentTop), AgentReceive(None));
    AckRead(c, installed);
    var w4, w7 := RunSeven(c, w, Cycle(wait));
    assert w4 == answered && w7 == After(c, installed, ANY_MESSAGE);
  }

  /** Below saturation one timely cycle renews the lease and restores the quiet state. */
  lemma CycleExtends(c: Config, w: World, wait: nat, lease: Lease)
    requires Quiet(c, w, lease) && HonestConfig(c) && c.policy.leaseTtl > 0
    requires InTime(c, w.now + wait, lease) && |w.session.sent| < U64_MAX
    ensures var next := Extended(c, w, w.now + wait, lease);
      var v := Run(c, w, Cycle(wait));
      && Quiet(c, v, next) && v.now == w.now + wait
      && next.issuedSeq == |v.session.sent| == |w.session.sent| + 1
  {
    CycleRuns(c, w, wait, lease);
  }

  // ---- Arbitrarily many cycles ----

  function Cycles(waits: seq<nat>): seq<Step> {
    if waits == [] then [] else Cycle(waits[0]) + Cycles(waits[1..])
  }

  function Total(waits: seq<nat>): nat { if waits == [] then 0 else waits[0] + Total(waits[1..]) }

  /** Each wait measured from the previous answer: past the offset, within the lifetime. */
  predicate Timely(c: Config, waits: seq<nat>) {
    forall k :: 0 <= k < |waits| ==> RefreshOffset(c.policy.leaseTtl, c.scale) <= waits[k] < c.policy.leaseTtl
  }

  lemma {:induction false} CyclesExtend(c: Config, w: World, waits: seq<nat>, lease: Lease) returns (last: Lease)
    requires Quiet(c, w, lease) && lease.issuedAt == w.now && lease.issuedSeq == |w.session.sent|
    requires HonestConfig(c) && c.policy.leaseTtl > 0 && Timely(c, waits)
    requires |w.session.sent| + |waits| <= U64_MAX
    ensures var v := Run(c, w, Cycles(waits));
      && Quiet(c, v, last) && last.issuedAt == v.now == w.now + Total(waits)
      && last.issuedSeq == |v.session.sent| == |w.session.sent| + |waits|
    decreases waits
  {
    if waits == [] {
      last := lease;
    } else {
      CycleExtends(c, w, waits[0], lease);
      RunAppends(c, w, Cycle(waits[0]), Cycles(waits[1..]));
      last := CyclesExtend(c, Run(c, w, Cycle(waits[0])), waits[1..], Extended(c, w, w.now + waits[0], lease));
    }
  }

  /** Registration, grant, installation, and the acknowledgement read. */
  function Boot(): seq<Step> { [ANY_MESSAGE, AgentTop, AgentReceive(None), ANY_MESSAGE] }

  lemma Booted(c: Config, now: int, agentId: string)
    requires c.policy.leaseTtl > 0
    ensures var lease := Lease(1, agentId, now, now + c.policy.leaseTtl, 1);
      var w := Run(c, Start(now, agentId, PROTOCOL_VERSION), Boot());
      Quiet(c, w, lease) && w.now == now && |w.session.sent| == 1
  {
    var lease := Lease(1, agentId, now, now + c.policy.leaseTtl, 1);
    var s := Boot();
    var w0 := Start(now, agentId, PROTOCOL_VERSION);
    var w1 := After(c, w0, s[0]);
    assert w1.session.sent == [Envelope(1, LeaseGrant(lease))] && w1.session.lease == Some(lease);
    var w2 := After(c, w1, s[1]);
    assert w2 == w1.(checked := true);
    var w3 := After(c, w2, s[2]);
    assert w3.agent.sent == w0.agent.sent + [Ack(1)];
    AckRead(c, w3);
    assert s[0..] == s && s[4..] == [];
    RunFrom(c, w0, s, 0);
    RunFrom(c, w1, s, 1);
    RunFrom(c, w2, s, 2);
    RunFrom(c, w3, s, 3);
  }

  /** From registration on, however long: an honest configuration whose refreshes are timely
      leaves the agent authorised at every point, for a whole lifetime ahead. */
  lemma AuthorityLasts(c: Config, now: int, agentId: string, waits: seq<nat>, t: int)
    requires HonestConfig(c) && c.policy.leaseTtl > 0 && Timely(c, waits) && |waits| < U64_MAX
    ensures var w := Run(c, Start(now, agentId, PROTOCOL_VERSION), Boot() + Cycles(waits));
      && w.now == now + Total(waits) && w.agentLive && w.sessionLive
      && (w.agent.state.AuthorisedAt(t) <==> t < w.now + c.policy.leaseTtl)
  {
    Booted(c, now, agentId);
    var start := Start(now, agentId, PROTOCOL_VERSION);
    RunAppends(c, start, Boot(), Cycles(waits));
    var last := CyclesExtend(c, Run(c, start, Boot()), waits,
                             Lease(1, agentId, now, now + c.policy.leaseTtl, 1));
  }

  // ---- Saturation ----

  /** The cycle after the largest number is reached installs a lease with the same number, so
      the marker stays and the agent never asks again. */
  lemma SaturatedCycleStrands(c: Config, w: World, wait: nat, lease: Lease)
    requires Quiet(c, w, lease) && HonestConfig(c) && c.policy.leaseTtl > 0 && w.up > 0
    requires InTime(c, w.now + wait, lease) && lease.issuedSeq == |w.session.sent| == U64_MAX
    ensures var next := Extended(c, w, w.now + wait, lease);
      var v := Run(c, w, Cycle(wait));
      next.issuedSeq == lease.issuedSeq && v.agent.lease == Some(next) && Stranded(v, next)
  {
    CycleRuns(c, w, wait, lease);
  }

  function Repeated(wait: nat, n: nat): (waits: seq<nat>)
    ensures |waits| == n && forall k :: 0 <= k < n ==> waits[k] == wait
  {
    seq(n, (k: nat) => wait)
  }

  /** Enough timely refreshes to reach the largest number. */
  function AlmostSaturating(wait: nat): seq<Step> { Boot() + Cycles(Repeated(wait, U64_MAX - 1)) }

  lemma LastNumber(c: Config, now: int, agentId: string, wait: nat) returns (lease: Lease)
    requires HonestConfig(c) && c.policy.leaseTtl > 0 && Timely(c, [wait])
    ensures var w := Run(c, Start(now, agentId, PROTOCOL_VERSION), AlmostSaturating(wait));
      Quiet(c, w, lease) && lease.issuedAt == w.now && lease.issuedSeq == |w.session.sent| == U64_MAX
  {
    var start, waits := Start(now, agentId, PROTOCOL_VERSION), Repeated(wait, U64_MAX - 1);
    assert [wait][0] == wait;
    Booted(c, now, agentId);
    RunAppends(c, start, Boot(), Cycles(waits));
    lease := CyclesExtend(c, Run(c, start, Boot()), waits, Lease(1, agentId, now, now + c.policy.leaseTtl, 1));
  }

  /** A run in which two successive leases carry one number; it is also the end of the agent's
      authority, however timely the controller remains. */
  lemma SaturationEndsAuthority(
      c: Config, now: int, agentId: string, wait: nat, after: seq<Step>, t: int)
    requires HonestConfig(c) && c.policy.leaseTtl > 0 && wait > 0 && Timely(c, [wait])
    ensures var before := Run(c, Start(now, agentId, PROTOCOL_VERSION), AlmostSaturating(wait));
      var w := Run(c, before, Cycle(wait));
      && before.agent.lease.Some? && w.agent.lease.Some? && before.agent.lease != w.agent.lease
      && before.agent.lease.value.issuedSeq == w.agent.lease.value.issuedSeq == U64_MAX
      && Run(c, w, after).agent.lease == w.agent.lease
      && (t >= w.agent.lease.value.expiresAt ==> !Run(c, w, after).agent.state.AuthorisedAt(t))
  {
    var start := Start(now, agentId, PROTOCOL_VERSION);
    assert [wait][0] == wait;
    var lease := LastNumber(c, now, agentId, wait);
    var before := Run(c, start, AlmostSaturating(wait));
    Reached(c, now, agentId, PROTOCOL_VERSION, AlmostSaturating(wait));
    SaturatedCycleStrands(c, before, wait, lease);
    var w := Run(c, before, Cycle(wait));
    RunKeeps(c, before, Cycle(wait));
    StrandedRun(c, w, after, w.agent.lease.value);
    RunKeeps(c, w, after);
  }
}
