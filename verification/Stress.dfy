/** The stress tests' synthetic price path, and drawdown tracking over it. */
module Stress {
  datatype Shock = Shock(
    peakPriceMove: real, peakTimeSecs: nat, spreadPeak: real, volumePeak: real, depthPeak: real,
    sellSharePeak: real)

  datatype Tick = Tick(
    offsetSecs: nat, mid: real, bid: real, ask: real, volume: real, sellShare: real, depth: real)

  const INTERVAL_SECS: nat := 60

  function SampleCount(durationSecs: nat): (n: nat)
    ensures n >= 1
  {
    if durationSecs / INTERVAL_SECS > 1 then durationSecs / INTERVAL_SECS else 1
  }

  function PeakIndex(shock: Shock, count: nat): (i: nat)
    requires count >= 1
    ensures i < count
  {
    if shock.peakTimeSecs / INTERVAL_SECS < count - 1 then shock.peakTimeSecs / INTERVAL_SECS else count - 1
  }

  function Ratio(a: int, d: int): real
    requires d > 0
  {
    a as real / d as real
  }

  /** The triangular ramp of sample i, branch by branch. */
  function Ramp(i: nat, peak: nat, count: nat): real
    requires i < count && peak < count
  {
    if peak == 0 then
      if count <= 1 then 1.0 else 1.0 - Ratio(i, count - 1)
    else if i <= peak then Ratio(i, peak)
    else if count - 1 - peak == 0 then 0.0
    else 1.0 - Ratio(i - peak, count - 1 - peak)
  }

  function Part(ramp: real, move: real): real { ramp * move }

  /** The baseline price under a fraction of the scenario's move. */
  function Shocked(baseline: real, move: real, ramp: real): real { baseline * (1.0 + Part(ramp, move)) }

  function HalfSpread(baseline: real, peak: real, ramp: real): real {
    baseline * 0.0001 * (1.0 + Part(ramp, peak - 1.0))
  }

  function TickAt(shock: Shock, baseline: real, ramp: real, offsetSecs: nat): Tick {
    var mid := Shocked(baseline, shock.peakPriceMove, ramp);
    var half := HalfSpread(baseline, shock.spreadPeak, ramp);
    Tick(offsetSecs, mid, mid - half, mid + half,
         100.0 * (1.0 + Part(ramp, shock.volumePeak - 1.0)),
         0.5 + Part(ramp, shock.sellSharePeak - 0.5),
         1.0 - Part(ramp, 1.0 - shock.depthPeak))
  }

  method GenerateTicks(shock: Shock, durationSecs: nat, baseline: real) returns (ticks: seq<Tick>)
    ensures |ticks| == SampleCount(durationSecs)
    ensures forall i :: 0 <= i < |ticks| ==>
      ticks[i] == TickAt(shock, baseline, Ramp(i, PeakIndex(shock, |ticks|), |ticks|), i * INTERVAL_SECS)
  {
    var count := SampleCount(durationSecs);
    var peak := PeakIndex(shock, count);
    ticks := [];
    for i := 0 to count
      invariant |ticks| == i
      invariant forall k :: 0 <= k < i ==>
        ticks[k] == TickAt(shock, baseline, Ramp(k, peak, count), k * INTERVAL_SECS)
    {
      var ramp;
      if peak == 0 {
        if count <= 1 { ramp := 1.0; } else { ramp := 1.0 - Ratio(i, count - 1); }
      } else if i <= peak {
        ramp := Ratio(i, peak);
      } else {
        var remaining := count - 1 - peak;
        ramp := if remaining == 0 then 0.0 else 1.0 - Ratio(i - peak, remaining);
      }
      ticks := ticks + [TickAt(shock, baseline, ramp, i * INTERVAL_SECS)];
    }
  }

  lemma RatioTimes(a: int, d: int)
    requires d > 0
    ensures Ratio(a, d) * d as real == a as real
    ensures Ratio(0, d) == 0.0 && Ratio(d, d) == 1.0
  {
  }

  lemma ProductOrder(x: real, y: real, d: real)
    requires d > 0.0
    ensures x < y <==> x * d < y * d
  {
    if x < y { assert (y - x) * d > 0.0; } else { assert (x - y) * d >= 0.0; }
  }

  lemma RatioMonotone(a: int, b: int, d: int)
    requires d > 0
    ensures Ratio(a, d) < Ratio(b, d) <==> a < b
  {
    RatioTimes(a, d);
    RatioTimes(b, d);
    ProductOrder(Ratio(a, d), Ratio(b, d), d as real);
  }

  /** The ramp stays in the unit interval and is one at the peak sample and only there. */
  lemma RampInUnit(i: nat, peak: nat, count: nat)
    requires i < count && peak < count
    ensures 0.0 <= Ramp(i, peak, count) <= 1.0
    ensures Ramp(i, peak, count) == 1.0 <==> i == peak
    ensures i == 0 && peak > 0 ==> Ramp(i, peak, count) == 0.0
    ensures i == count - 1 && peak < i ==> Ramp(i, peak, count) == 0.0
  {
    var tail := count - 1 - peak;
    if 0 < peak && i <= peak {
      RatioTimes(i, peak);
      RatioMonotone(i, 0, peak);
      RatioMonotone(peak, i, peak);
      RatioMonotone(i, peak, peak);
    } else if tail > 0 {
      RatioTimes(i - peak, tail);
      RatioMonotone(i - peak, 0, tail);
      RatioMonotone(0, i - peak, tail);
      RatioMonotone(tail, i - peak, tail);
    }
  }

  /** It climbs strictly up to the peak and falls strictly after it. */
  lemma RampLegs(i: nat, j: nat, peak: nat, count: nat)
    requires i < j < count && peak < count
    ensures j <= peak ==> Ramp(i, peak, count) < Ramp(j, peak, count)
    ensures i >= peak ==> Ramp(i, peak, count) > Ramp(j, peak, count)
  {
    if j <= peak {
      RatioMonotone(i, j, peak);
    } else if i >= peak {
      RatioMonotone(i - peak, j - peak, count - 1 - peak);
      RatioTimes(0, count - 1 - peak);
      RampInUnit(i, peak, count);
    }
  }

  lemma PartWithin(ramp: real, move: real)
    requires 0.0 <= ramp <= 1.0
    ensures Within(Part(ramp, move), 0.0, move)
    ensures Part(1.0, move) == move
  {
    Distribute(ramp, move);
    if move >= 0.0 {
      NonNegative(ramp, move);
      NonNegative(1.0 - ramp, move);
    } else {
      Negated(ramp, move);
      Negated(1.0 - ramp, move);
      NonNegative(ramp, -move);
      NonNegative(1.0 - ramp, -move);
    }
  }

  lemma Distribute(ramp: real, move: real)
    ensures Part(1.0 - ramp, move) == move - Part(ramp, move)
    ensures Part(1.0, move) == move
  {
  }

  lemma Negated(ramp: real, move: real)
    ensures Part(ramp, -move) == -Part(ramp, move)
  {
  }

  lemma NonNegative(ramp: real, move: real)
    requires ramp >= 0.0 && move >= 0.0
    ensures Part(ramp, move) >= 0.0
  {
  }

  lemma MidWithin(move: real, baseline: real, ramp: real)
    requires 0.0 <= ramp <= 1.0 && baseline >= 0.0
    ensures Within(Shocked(baseline, move, ramp), baseline, Shocked(baseline, move, 1.0))
  {
    PartWithin(ramp, move);
    var part := Part(ramp, move);
    Scaled(baseline, 1.0, 1.0 + part);
    Scaled(baseline, 1.0 + part, 1.0);
    Scaled(baseline, 1.0 + part, 1.0 + move);
    Scaled(baseline, 1.0 + move, 1.0 + part);
  }

  lemma Scaled(k: real, a: real, b: real)
    requires k >= 0.0
    ensures a <= b ==> k * a <= k * b
  {
    if a <= b { assert k * (b - a) >= 0.0; }
  }

  predicate Within(x: real, from: real, to: real) { from <= x <= to || to <= x <= from }

  /** Every tick of every scenario: the mid lies between the baseline and the shocked price,
      and depth, volume and sell share between their calm and their peak values, all reached
      at the peak sample; and a non-negative spread never crosses the book. */
  lemma TicksWithinShock(shock: Shock, baseline: real, i: nat, count: nat)
    requires i < count && baseline >= 0.0
    ensures var peak := PeakIndex(shock, count);
      var t := TickAt(shock, baseline, Ramp(i, peak, count), i * INTERVAL_SECS);
      var shocked := Shocked(baseline, shock.peakPriceMove, 1.0);
      && Within(t.mid, baseline, shocked) && Within(t.depth, 1.0, shock.depthPeak)
      && Within(t.sellShare, 0.5, shock.sellSharePeak) && Within(t.volume, 100.0, 100.0 * shock.volumePeak)
      && (i == peak ==> t.mid == shocked && t.depth == shock.depthPeak && t.sellShare == shock.sellSharePeak
                        && t.volume == 100.0 * shock.volumePeak)
      && (shock.spreadPeak >= 0.0 ==> t.bid <= t.mid <= t.ask)
  {
    var peak := PeakIndex(shock, count);
    RampInUnit(i, peak, count);
    TickWithin(shock, baseline, Ramp(i, peak, count), i * INTERVAL_SECS);
  }

  lemma TickWithin(shock: Shock, baseline: real, ramp: real, offset: nat)
    requires 0.0 <= ramp <= 1.0 && baseline >= 0.0
    ensures var t := TickAt(shock, baseline, ramp, offset);
      var shocked := Shocked(baseline, shock.peakPriceMove, 1.0);
      && Within(t.mid, baseline, shocked) && Within(t.depth, 1.0, shock.depthPeak)
      && Within(t.sellShare, 0.5, shock.sellSharePeak) && Within(t.volume, 100.0, 100.0 * shock.volumePeak)
      && (ramp == 1.0 ==> t.mid == shocked && t.depth == shock.depthPeak && t.sellShare == shock.sellSharePeak
                          && t.volume == 100.0 * shock.volumePeak)
      && (shock.spreadPeak >= 0.0 ==> t.bid <= t.mid <= t.ask)
  {
    MidWithin(shock.peakPriceMove, baseline, ramp);
    IntensityWithin(ramp, shock.depthPeak, shock.sellSharePeak);
    PartWithin(ramp, shock.volumePeak - 1.0);
    if shock.spreadPeak >= 0.0 { HalfSpreadNonNegative(baseline, shock.spreadPeak, ramp); }
  }

  lemma IntensityWithin(ramp: real, depth: real, share: real)
    requires 0.0 <= ramp <= 1.0
    ensures Within(1.0 - Part(ramp, 1.0 - depth), 1.0, depth)
    ensures Within(0.5 + Part(ramp, share - 0.5), 0.5, share)
    ensures ramp == 1.0 ==> Part(ramp, 1.0 - depth) == 1.0 - depth && Part(ramp, share - 0.5) == share - 0.5
  {
    PartWithin(ramp, 1.0 - depth);
    PartWithin(ramp, share - 0.5);
  }

  lemma HalfSpreadNonNegative(baseline: real, peak: real, ramp: real)
    requires 0.0 <= ramp <= 1.0 && baseline >= 0.0 && peak >= 0.0
    ensures HalfSpread(baseline, peak, ramp) >= 0.0
  {
    PartWithin(ramp, peak - 1.0);
    NonNegative(baseline * 0.0001, 1.0 + Part(ramp, peak - 1.0));
  }

  // ---- the path in numbers ----

  /** One sample a minute, at least one. */
  lemma SampleCountMeaning(durationSecs: nat)
    ensures var count := SampleCount(durationSecs);
      count * 60 <= durationSecs < (count + 1) * 60 || (count == 1 && durationSecs < 60)
  {
  }

  /** The peak is the sample whose minute holds the peak time, or the last one. */
  lemma PeakIndexMeaning(shock: Shock, count: nat)
    requires count >= 1
    ensures var peak := PeakIndex(shock, count);
      peak * 60 <= shock.peakTimeSecs && (shock.peakTimeSecs < (peak + 1) * 60 || peak == count - 1)
  {
  }

  /** The fraction `num / den` of the way from the calm value to the peak value. */
  predicate OnLeg(x: real, calm: real, top: real, num: nat, den: nat) {
    (x - calm) * den as real == (top - calm) * num as real
  }

  lemma LegOf(x: real, calm: real, top: real, ramp: real, num: nat, den: nat)
    requires ramp * den as real == num as real && x - calm == Part(ramp, top - calm)
    ensures OnLeg(x, calm, top, num, den)
  {
    assert Part(ramp, top - calm) * den as real == (top - calm) * (ramp * den as real);
  }

  lemma ShockedPart(baseline: real, move: real, ramp: real)
    ensures Shocked(baseline, move, ramp) - baseline == Part(ramp, baseline * (1.0 + move) - baseline)
  {
    assert Shocked(baseline, move, ramp) - baseline == baseline * (ramp * move);
    assert baseline * (1.0 + move) - baseline == baseline * move;
    Reassociate(baseline, ramp, move);
  }

  lemma Reassociate(x: real, y: real, z: real)
    ensures x * (y * z) == y * (x * z)
  {
  }

  lemma Complement(r: real, a: real, d: real)
    requires r * d == a
    ensures (1.0 - r) * d == d - a
  {
  }

  /** Sample i is this far along its leg. */
  lemma RampFraction(i: nat, peak: nat, count: nat, num: nat, den: nat)
    requires i < count && peak < count
    requires if i > peak then num == count - 1 - i && den == count - 1 - peak
             else if peak > 0 then num == i && den == peak else num == den == 1
    ensures den > 0 && Ramp(i, peak, count) * den as real == num as real
  {
    if i > peak {
      RatioTimes(i - peak, den);
      assert Ramp(i, peak, count) == 1.0 - Ratio(i - peak, den);
      Complement(Ratio(i - peak, den), (i - peak) as real, den as real);
    } else if peak > 0 {
      RatioTimes(i, peak);
    }
  }

  lemma TickOnLeg(shock: Shock, baseline: real, ramp: real, offset: nat, num: nat, den: nat)
    requires ramp * den as real == num as real
    ensures var t := TickAt(shock, baseline, ramp, offset);
      var half := baseline * 0.0001;
      && OnLeg(t.mid, baseline, baseline * (1.0 + shock.peakPriceMove), num, den)
      && OnLeg(t.ask - t.mid, half, half * shock.spreadPeak, num, den) && t.mid - t.bid == t.ask - t.mid
      && OnLeg(t.volume, 100.0, 100.0 * shock.volumePeak, num, den)
      && OnLeg(t.sellShare, 0.5, shock.sellSharePeak, num, den)
      && OnLeg(t.depth, 1.0, shock.depthPeak, num, den)
  {
    var t := TickAt(shock, baseline, ramp, offset);
    var half := baseline * 0.0001;
    ShockedPart(baseline, shock.peakPriceMove, ramp);
    LegOf(t.mid, baseline, baseline * (1.0 + shock.peakPriceMove), ramp, num, den);
    ShockedPart(half, shock.spreadPeak - 1.0, ramp);
    assert 1.0 + (shock.spreadPeak - 1.0) == shock.spreadPeak;
    LegOf(t.ask - t.mid, half, half * shock.spreadPeak, ramp, num, den);
    ShockedPart(100.0, shock.volumePeak - 1.0, ramp);
    LegOf(t.volume, 100.0, 100.0 * shock.volumePeak, ramp, num, den);
    LegOf(t.sellShare, 0.5, shock.sellSharePeak, ramp, num, den);
    Negated(ramp, 1.0 - shock.depthPeak);
    assert -(1.0 - shock.depthPeak) == shock.depthPeak - 1.0;
    LegOf(t.depth, 1.0, shock.depthPeak, ramp, num, den);
  }

  /** Every series of every scenario is piecewise linear: sample i, i minutes in, is i / peak of
      the way up to its peak value, and after the peak falls back to the calm value at the
      last sample. The calm values are the baseline price, one basis point of it on either
      side, a volume of 100, half the flow selling, and full depth. */
  lemma TicksPiecewiseLinear(shock: Shock, baseline: real, i: nat, count: nat, num: nat, den: nat)
    requires i < count
    requires var peak := PeakIndex(shock, count);
      if i > peak then num == count - 1 - i && den == count - 1 - peak
      else if peak > 0 then num == i && den == peak else num == den == 1
    ensures var t := TickAt(shock, baseline, Ramp(i, PeakIndex(shock, count), count), i * INTERVAL_SECS);
      var half := baseline * 0.0001;
      && den > 0 && t.offsetSecs == 60 * i
      && OnLeg(t.mid, baseline, baseline * (1.0 + shock.peakPriceMove), num, den)
      && OnLeg(t.ask - t.mid, half, half * shock.spreadPeak, num, den) && t.mid - t.bid == t.ask - t.mid
      && OnLeg(t.volume, 100.0, 100.0 * shock.volumePeak, num, den)
      && OnLeg(t.sellShare, 0.5, shock.sellSharePeak, num, den)
      && OnLeg(t.depth, 1.0, shock.depthPeak, num, den)
  {
    var peak := PeakIndex(shock, count);
    RampFraction(i, peak, count, num, den);
    TickOnLeg(shock, baseline, Ramp(i, peak, count), i * INTERVAL_SECS, num, den);
  }

  // ---- Drawdown ----

  /** The equity curve with the flat start every run is measured from. */
  function Equity(pnl: seq<real>, i: nat): real
    requires i <= |pnl|
  {
    if i == 0 then 0.0 else pnl[i - 1]
  }

  /** The largest fall from an earlier point of the curve to a later one. */
  ghost predicate IsMaxDrawdown(pnl: seq<real>, d: real) {
    && (forall i, j :: 0 <= i <= j <= |pnl| ==> Equity(pnl, i) - Equity(pnl, j) <= d)
    && (exists i, j :: 0 <= i <= j <= |pnl| && Equity(pnl, i) - Equity(pnl, j) == d)
  }

  /** The one-pass accumulation: the running peak and the worst fall below it. */
  method MaxDrawdown(pnl: seq<real>) returns (maxDrawdown: real, peak: real)
    ensures IsMaxDrawdown(pnl, maxDrawdown)
    ensures forall i :: 0 <= i <= |pnl| ==> Equity(pnl, i) <= peak
    ensures exists i :: 0 <= i <= |pnl| && Equity(pnl, i) == peak
  {
    maxDrawdown, peak := 0.0, 0.0;
    ghost var top, from, to: nat := 0, 0, 0;
    for k := 0 to |pnl|
      invariant top <= k && Equity(pnl, top) == peak
      invariant forall i :: 0 <= i <= k ==> Equity(pnl, i) <= peak
      invariant from <= to <= k && Equity(pnl, from) - Equity(pnl, to) == maxDrawdown
      invariant forall i, j :: 0 <= i <= j <= k ==> Equity(pnl, i) - Equity(pnl, j) <= maxDrawdown
    {
      assert Equity(pnl, k + 1) == pnl[k];
      if pnl[k] > peak {
        peak, top := pnl[k], k + 1;
      }
      var drawdown := peak - pnl[k];
      if drawdown > maxDrawdown {
        maxDrawdown, from, to := drawdown, top, k + 1;
      }
    }
  }
}
