/** What one observation does to the five markers, in the geometry of the method: which
    positions move, and where the heights land. */
module P2Steps {
  import opened Floats
  import opened Sorting
  import opened P2Estimator
  import opened P2Laws

  // ---- relations between the states before and after ----

  /** A sample is placed: outer heights stretch to it, positions above it move up by one, and
      every desired position advances by its increment. */
  ghost predicate Places(e: Estimator, x: real, r: Estimator) {
    && |e.q| == 5 && |e.n| == 5 && |e.np| == 5 && |e.dn| == 5 && |r.np| == 5
    && r.q == [if x < e.q[0] then x else e.q[0], e.q[1], e.q[2], e.q[3], if x < e.q[4] then e.q[4] else x]
    && r.n == [e.n[0],
               if x < e.q[1] then e.n[1] + 1.0 else e.n[1],
               if x < e.q[2] then e.n[2] + 1.0 else e.n[2],
               if x < e.q[3] then e.n[3] + 1.0 else e.n[3],
               e.n[4] + 1.0]
    && (forall i :: 0 <= i < 5 ==> r.np[i] == e.np[i] + e.dn[i])
    && r.p == e.p && r.dn == e.dn
  }

  /** One position from `x` towards `y`, which is `gap` positions away. */
  predicate OnChord(x: real, y: real, gap: real, h: real) { (h - x) * gap == y - x }

  /** The height `h` for a marker taken `s` positions on: the value there of the quadratic
      through it and its neighbours if that lies strictly between the neighbours, and
      otherwise on the chord to the neighbour it moves towards. */
  ghost predicate Lands(q: seq<real>, n: seq<real>, i: nat, s: real, h: real)
    requires |q| == 5 && PositionsIncrease(n) && 1 <= i <= 3
  {
    exists a, b :: ThroughMarkers(q, n, i, a, b) && LandsOn(q, n, i, s, Quadratic(a, b, q[i], s), h)
  }

  ghost predicate LandsOn(q: seq<real>, n: seq<real>, i: nat, s: real, curve: real, h: real)
    requires |q| == 5 && PositionsIncrease(n) && 1 <= i <= 3
  {
    if q[i - 1] < curve < q[i + 1] then h == curve
    else if s > 0.0 then OnChord(q[i], q[i + 1], n[i + 1] - n[i], h)
    else OnChord(q[i], q[i - 1], n[i] - n[i - 1], h)
  }

  /** An interior marker at least one position behind its desired one moves up by one, and at
      least one ahead down by one, if the gap on that side exceeds one; otherwise nothing
      changes. */
  ghost predicate Settles(e: Estimator, i: nat, r: Estimator)
    requires |e.q| == 5 && PositionsIncrease(e.n) && |e.np| == 5 && 1 <= i <= 3
  {
    var behind := e.np[i] - e.n[i];
    && r.p == e.p && r.np == e.np && r.dn == e.dn
    && (if behind >= 1.0 && e.n[i + 1] - e.n[i] > 1.0 then
          && r.n == e.n[i := e.n[i] + 1.0] && |r.q| == 5
          && r.q == e.q[i := r.q[i]] && Lands(e.q, e.n, i, 1.0, r.q[i])
        else if behind <= -1.0 && e.n[i] - e.n[i - 1] > 1.0 then
          && r.n == e.n[i := e.n[i] - 1.0] && |r.q| == 5
          && r.q == e.q[i := r.q[i]] && Lands(e.q, e.n, i, -1.0, r.q[i])
        else r.n == e.n && r.q == e.q)
  }

  // ---- one marker ----

  lemma TowardUp(x: real, y: real, gap: real)
    requires gap > 0.0
    ensures OnChord(x, y, gap, Toward(x, y, gap, 1.0))
  {
    var z := 1.0 * (y - x) / gap;
    assert z * gap == y - x;
  }

  lemma TowardDown(x: real, y: real, gap: real)
    requires gap > 0.0
    ensures OnChord(x, y, gap, Toward(x, y, -gap, -1.0))
  {
    var z := -1.0 * (y - x) / -gap;
    assert z * -gap == -(y - x);
  }

  lemma HeightLands(q: seq<real>, n: seq<real>, i: nat, s: real)
    requires |q| == 5 && PositionsIncrease(n) && 1 <= i <= 3 && (s == 1.0 || s == -1.0)
    ensures Lands(q, n, i, s, Height(q, n, i, s))
  {
    var a, b := ParabolaUnique(q, n, i);
    ParabolicInterpolates(q, n, i, s, a, b);
    HeightLandsOn(q, n, i, s);
    assert LandsOn(q, n, i, s, Quadratic(a, b, q[i], s), Height(q, n, i, s));
  }

  lemma HeightLandsOn(q: seq<real>, n: seq<real>, i: nat, s: real)
    requires |q| == 5 && PositionsIncrease(n) && 1 <= i <= 3 && (s == 1.0 || s == -1.0)
    ensures LandsOn(q, n, i, s, Parabolic(q, n, i, s), Height(q, n, i, s))
  {
    TowardUp(q[i], q[i + 1], n[i + 1] - n[i]);
    TowardDown(q[i], q[i - 1], n[i] - n[i - 1]);
    assert n[i - 1] - n[i] == -(n[i] - n[i - 1]);
  }

  lemma AdjustedSettles(e: Estimator, i: nat)
    requires Shaped(e) && PositionsIncrease(e.n) && 1 <= i <= 3
    ensures Settles(e, i, Adjusted(e, i))
  {
    HeightLands(e.q, e.n, i, 1.0);
    HeightLands(e.q, e.n, i, -1.0);
  }

  // ---- one observation ----

  lemma RelocatedPlaces(e: Estimator, x: real)
    requires Shaped(e) && PositionsIncrease(e.n) && HeightsAscend(e.q)
    ensures Places(e, x, Relocated(e, x))
  {
  }

  /** From the fifth sample on, over every stream: one more sample is placed, then the three
      interior markers settle in order, and the estimate is the middle height. */
  lemma SampleSettles(p: real, os: seq<F64>, x: real) returns (placed: Estimator, first: Estimator, second: Estimator)
    requires 0.0 < p < 1.0 && |Samples(os)| >= 5
    ensures Places(Stream(p, os), x, placed)
    ensures PositionsIncrease(placed.n) && Settles(placed, 1, first)
    ensures |first.q| == 5 && PositionsIncrease(first.n) && Settles(first, 2, second)
    ensures |second.q| == 5 && PositionsIncrease(second.n) && Settles(second, 3, Stream(p, os + [Finite(x)]))
    ensures Stream(p, os + [Finite(x)]).count == |Samples(os)| + 1
    ensures Estimate(Stream(p, os + [Finite(x)])) == Stream(p, os + [Finite(x)]).q[2]
  {
    StreamTracks(p, os);
    var e := Stream(p, os);
    placed := Relocated(e, x);
    first := Adjusted(placed, 1);
    second := Adjusted(first, 2);
    RelocatedPlaces(e, x);
    AdjustedSettles(placed, 1);
    AdjustedSettles(first, 2);
    AdjustedSettles(second, 3);
    assert (os + [Finite(x)])[..|os|] == os;
    assert Stream(p, os + [Finite(x)]) == Adjusted(second, 3).(count := e.count + 1);
  }

  lemma ChordUnique(x: real, y: real, gap: real, h: real, g: real)
    requires gap > 0.0 && OnChord(x, y, gap, h) && OnChord(x, y, gap, g)
    ensures h == g
  {
    assert (h - x) * gap - (g - x) * gap == (h - g) * gap;
    SignOfProduct(h - g, gap);
  }

  /** A marker lands at one height only, so the steps above determine the next state. */
  lemma LandingUnique(q: seq<real>, n: seq<real>, i: nat, s: real, h: real, g: real)
    requires |q| == 5 && PositionsIncrease(n) && 1 <= i <= 3 && (s == 1.0 || s == -1.0)
    requires Lands(q, n, i, s, h) && Lands(q, n, i, s, g)
    ensures h == g
  {
    var a, b := ParabolaUnique(q, n, i);
    var curve := Quadratic(a, b, q[i], s);
    assert LandsOn(q, n, i, s, curve, h) && LandsOn(q, n, i, s, curve, g);
    if !(q[i - 1] < curve < q[i + 1]) {
      if s > 0.0 {
        ChordUnique(q[i], q[i + 1], n[i + 1] - n[i], h, g);
      } else {
        ChordUnique(q[i], q[i - 1], n[i] - n[i - 1], h, g);
      }
    }
  }

  // ---- the fifth sample ----

  /** A sample that is not finite changes nothing, whatever came before. */
  lemma NonFiniteIgnored(p: real, os: seq<F64>)
    requires 0.0 < p < 1.0
    ensures Stream(p, os + [NonFinite]) == Stream(p, os)
  {
    assert (os + [NonFinite])[..|os|] == os;
  }

  /** After exactly five samples the heights are those samples in ascending order, the markers
      stand at 1 to 5, and the estimate is the third smallest. */
  lemma {:induction false} FiveSamples(p: real, os: seq<F64>)
    requires 0.0 < p < 1.0 && |Samples(os)| == 5
    ensures var e := Stream(p, os);
      && e.count == 5 && |e.q| == 5 && multiset(e.q) == multiset(Samples(os))
      && e.q[0] <= e.q[1] <= e.q[2] <= e.q[3] <= e.q[4]
      && e.n == [1.0, 2.0, 3.0, 4.0, 5.0] && Estimate(e) == e.q[2]
    decreases os
  {
    var front, last := os[..|os| - 1], os[|os| - 1];
    if last.NonFinite? {
      assert Samples(os) == Samples(front);
      FiveSamples(p, front);
    } else {
      StreamTracks(p, front);
      StreamTracks(p, os);
      var e := Stream(p, front);
      assert Samples(os) == Samples(front) + [last.x];
      assert e.q[4 := last.x] == Samples(os) by { assert e.q[..4] == Samples(front); }
      SortPermutes(RealLeq(), Samples(os));
    }
  }
}
