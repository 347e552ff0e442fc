/** The runtime settings: what their check admits never has a refresh turned away, and asks for
    each refresh a third into the lifetime. */
module Tunables {
  import opened AgentLaws
  import opened Control
  import opened LeaseAgent
  import opened LeaseProtocol
  import opened LeaseSafety
  import opened RefreshCycles
  import opened RefreshLoop
  import opened Wrappers

  /** A whole number below 2^24. */
  predicate Representable(x: real) { x == x.Floor as real && 0 <= x.Floor < 16_777_216 }

  /** What is used of rounding to f32: it is monotone and leaves such numbers alone. */
  ghost predicate RoundsLikeF32(round: real -> real) {
    && (forall x, y :: x <= y ==> round(x) <= round(y))
    && (forall x :: Representable(x) ==> round(x) == x)
  }

  /** One third as an f32, a little more than a third. */
  const F32_THIRD: real := 11184811.0 / 33554432.0

  lemma ThirdCovers(totalMs: nat, least: nat)
    requires 3 * least <= totalMs
    ensures least as real <= totalMs as real * F32_THIRD
  {
    assert totalMs as real * F32_THIRD >= totalMs as real * (1.0 / 3.0);
  }

  lemma TruncatedAtLeast(x: real, n: nat)
    requires x >= n as real
    ensures Truncated(x) >= n
  {
  }

  /** The refresh offset of such a configuration, in milliseconds, is at least the interval. */
  lemma RoundedThird(round: real -> real, totalMs: nat, least: nat)
    requires RoundsLikeF32(round) && 3 * least <= totalMs <= 600_000
    ensures Truncated(round(totalMs as real * F32_THIRD)) >= least
  {
    ThirdCovers(totalMs, least);
    assert Representable(least as real);
    assert round(least as real) <= round(totalMs as real * F32_THIRD);
    TruncatedAtLeast(round(totalMs as real * F32_THIRD), least);
  }

  /** ... and at most a third of the lifetime plus one. */
  lemma RoundedThirdWithin(round: real -> real, totalMs: nat)
    requires RoundsLikeF32(round) && totalMs <= 600_000
    ensures 0 <= Truncated(round(totalMs as real * F32_THIRD)) <= totalMs / 3 + 1
  {
    var most := totalMs / 3 + 1;
    assert totalMs as real * F32_THIRD <= most as real;
    assert Representable(0.0) && Representable(most as real);
    assert round(0.0) <= round(totalMs as real * F32_THIRD) <= round(most as real);
  }

  /** The settings the runtime check admits: three times the interval within a lifetime of at
      most ten minutes, at the default refresh fraction with its product rounded to f32. */
  ghost predicate Admitted(c: Config, round: real -> real, ttlSecs: nat, intervalSecs: nat) {
    && RoundsLikeF32(round) && (forall ms :: 0 <= ms ==> c.scale(ms) == round(ms as real * F32_THIRD))
    && c.policy == Policy(ttlSecs * 1_000_000_000, intervalSecs * 1_000_000_000)
    && 3 * intervalSecs <= ttlSecs <= 600
  }

  lemma AdmittedOffset(c: Config, round: real -> real, ttlSecs: nat, intervalSecs: nat) returns (offsetMs: int)
    requires Admitted(c, round, ttlSecs, intervalSecs)
    ensures RefreshOffset(c.policy.leaseTtl, c.scale) == offsetMs * 1_000_000
    ensures intervalSecs * 1000 <= offsetMs <= ttlSecs * 1000 / 3 + 1
  {
    var totalMs := if ttlSecs > 0 then ttlSecs * 1000 else 1;
    RoundedThird(round, totalMs, intervalSecs * 1000);
    RoundedThirdWithin(round, totalMs);
    assert c.policy.leaseTtl == ttlSecs * 1000 * MS && ttlSecs * 1000 * MS / MS == ttlSecs * 1000;
    assert c.scale(totalMs) == round(totalMs as real * F32_THIRD);
    offsetMs := Truncated(c.scale(totalMs));
  }

  /** Every admitted setting is honest, rounding of the product included. */
  lemma AdmittedSettingsAreHonest(c: Config, round: real -> real, ttlSecs: nat, intervalSecs: nat)
    requires Admitted(c, round, ttlSecs, intervalSecs)
    ensures HonestConfig(c)
  {
    var offsetMs := AdmittedOffset(c, round, ttlSecs, intervalSecs);
  }

  /** Over every run of an admitted setting, a timeout of an agent holding a lease it has not
      asked about sends nothing before the interval has passed since its issue, and a request
      from one millisecond after a third of the lifetime on. */
  lemma AsksAfterAThird(
      c: Config, round: real -> real, ttlSecs: nat, intervalSecs: nat, now: int, agentId: string, version: nat,
      steps: seq<Step>)
    requires Admitted(c, round, ttlSecs, intervalSecs)
    requires var w := Run(c, Start(now, agentId, version), steps);
      && w.agentLive && w.sessionLive && w.checked && w.agent.lease.Some?
      && w.agent.lease.value.issuedSeq !in w.agent.asked
    ensures var w := Run(c, Start(now, agentId, version), steps);
      var v := After(c, w, AgentTimeout(false));
      var lease := w.agent.lease.value;
      var ageMs := (w.now - lease.issuedAt) / 1_000_000;
      && (ageMs < intervalSecs * 1000 ==> v.agent.sent == w.agent.sent)
      && (ageMs >= ttlSecs * 1000 / 3 + 1 ==>
            v.agent.sent == w.agent.sent + [LeaseRefreshRequest(lease.id)])
  {
    var w := Run(c, Start(now, agentId, version), steps);
    var lease := w.agent.lease.value;
    Reached(c, now, agentId, version, steps);
    var k := LastLeaseFound(w.session.sent, w.down);
    assert StampedBy(c.policy, w.session.sent[k], w.now);
    var offsetMs := AdmittedOffset(c, round, ttlSecs, intervalSecs);
    AsksWhenDue(c, now, agentId, version, steps, false, lease);
  }

  /** Timely schedules exist with two thirds of the lifetime to spare: under every admitted
      setting, waits of at least a third of the lifetime and a millisecond, short of the
      lifetime, keep the agent authorised a whole lifetime ahead, however many there are. */
  lemma AdmittedAuthorityLasts(
      c: Config, round: real -> real, ttlSecs: nat, intervalSecs: nat, now: int, agentId: string,
      waits: seq<nat>, t: int)
    requires Admitted(c, round, ttlSecs, intervalSecs) && ttlSecs > 0 && |waits| < U64_MAX
    requires forall k :: 0 <= k < |waits| ==>
      (ttlSecs * 1000 / 3 + 1) * 1_000_000 <= waits[k] < ttlSecs * 1_000_000_000
    ensures var w := Run(c, Start(now, agentId, 1), Boot() + Cycles(waits));
      && w.now == now + Total(waits) && w.agentLive && w.sessionLive
      && (w.agent.state.AuthorisedAt(t) <==> t < w.now + ttlSecs * 1_000_000_000)
  {
    var offsetMs := AdmittedOffset(c, round, ttlSecs, intervalSecs);
    AuthorityLasts(c, now, agentId, waits, t);
  }
}
