/** What the P-square estimator promises over every stream of observations. */
module P2Laws {
  import opened Floats
  import opened Sorting
  import opened P2Estimator

  ghost predicate HeightsAscend(q: seq<real>) {
    |q| == 5 && q[0] <= q[1] <= q[2] <= q[3] <= q[4]
  }

  predicate Integral(r: real) { r == r.Floor as real }

  ghost predicate Whole(n: seq<real>) {
    forall i :: 0 <= i < |n| ==> Integral(n[i])
  }

  ghost predicate IsMin(m: real, s: seq<real>) {
    m in s && forall y :: y in s ==> m <= y
  }

  ghost predicate IsMax(m: real, s: seq<real>) {
    m in s && forall y :: y in s ==> y <= m
  }

  /** The increments that pull marker `i` towards its quantile. */
  function Increment(p: real, i: nat): real
    requires i < 5
  {
    if i == 0 then 0.0 else if i == 1 then p / 2.0 else if i == 2 then p
    else if i == 3 then (1.0 + p) / 2.0 else 1.0
  }

  /** Increments and desired positions in closed form. */
  ghost predicate Scheduled(p: real, count: nat, np: seq<real>, dn: seq<real>) {
    && |np| == 5 && |dn| == 5
    && (forall i :: 0 <= i < 5 ==> dn[i] == Increment(p, i))
    && (forall i :: 0 <= i < 5 ==> np[i] == 1.0 + dn[i] * (count - 1) as real)
  }

  ghost predicate Spans(q: seq<real>, seen: seq<real>) {
    HeightsAscend(q) && IsMin(q[0], seen) && IsMax(q[4], seen)
  }

  ghost predicate Ranked(n: seq<real>, count: nat) {
    PositionsIncrease(n) && n[0] == 1.0 && n[4] == count as real && Whole(n)
  }

  /** The invariant of an estimator that has seen exactly `seen`. */
  ghost predicate Tracks(e: Estimator, seen: seq<real>) {
    && Placed(e) && e.count == |seen|
    && (e.count < 5 ==> e.q[..e.count] == seen)
    && (e.count >= 5 ==>
        Spans(e.q, seen) && Ranked(e.n, e.count) && Scheduled(e.p, e.count, e.np, e.dn))
  }

  // ---- one adjustment ----

  /** A gap wider than one keeps the linear step inside the bracket. */
  lemma LinearBracketed(q: seq<real>, n: seq<real>, i: nat, sign: real)
    requires HeightsAscend(q) && PositionsIncrease(n) && 1 <= i <= 3
    requires (sign == 1.0 && n[i + 1] - n[i] > 1.0) || (sign == -1.0 && n[i - 1] - n[i] < -1.0)
    ensures q[i - 1] <= Linear(q, n, i, sign) <= q[i + 1]
  {
    if sign == 1.0 {
      ShrinkStep(q[i + 1] - q[i], n[i + 1] - n[i]);
      assert sign * (q[i + 1] - q[i]) == q[i + 1] - q[i];
    } else {
      ShrinkStep(q[i] - q[i - 1], n[i] - n[i - 1]);
      assert sign * (q[i - 1] - q[i]) == q[i] - q[i - 1];
      NegateDenominator(q[i] - q[i - 1], n[i] - n[i - 1]);
      assert n[i - 1] - n[i] == -(n[i] - n[i - 1]);
    }
  }

  lemma ShrinkStep(rise: real, gap: real)
    requires rise >= 0.0 && gap > 1.0
    ensures 0.0 <= rise / gap <= rise
  {
    var r := rise / gap;
    assert r * gap == rise;
    assert r >= 0.0;
    assert r * (gap - 1.0) >= 0.0;
  }

  lemma NegateDenominator(a: real, h: real)
    requires h > 0.0
    ensures a / (-h) == -(a / h)
  {
    var r := a / h;
    assert (-r) * (-h) == a;
  }

  /** Parabolic or linear, the new height stays between its neighbours. */
  lemma HeightBracketed(q: seq<real>, n: seq<real>, np: seq<real>, i: nat)
    requires HeightsAscend(q) && PositionsIncrease(n) && |np| == 5 && 1 <= i <= 3
    requires ShouldStep(n, np, i)
    ensures q[i - 1] <= Height(q, n, i, Direction(n, np, i)) <= q[i + 1]
  {
    LinearBracketed(q, n, i, Direction(n, np, i));
  }

  lemma ReplaceInner(q: seq<real>, i: nat, h: real)
    requires HeightsAscend(q) && 1 <= i <= 3 && q[i - 1] <= h <= q[i + 1]
    ensures HeightsAscend(q[i := h])
  {
  }

  lemma IntegralShift(r: real, k: int)
    requires Integral(r)
    ensures Integral(r + k as real)
  {
    var m := r.Floor + k;
    assert r + k as real == m as real;
  }

  lemma WholeStep(n: seq<real>, i: nat, s: real)
    requires Whole(n) && i < |n| && (s == 1.0 || s == -1.0)
    ensures Whole(n[i := n[i] + s])
  {
    assert Integral(n[i]);
    IntegralShift(n[i], if s == 1.0 then 1 else -1);
  }

  lemma WholeShift(n: seq<real>, k: nat)
    requires Whole(n)
    ensures Whole(ShiftAbove(n, k))
  {
    forall i | 0 <= i < |n| ensures Integral(ShiftAbove(n, k)[i]) {
      assert Integral(n[i]);
      IntegralShift(n[i], 1);
    }
  }

  lemma AdjustedKeeps(e: Estimator, i: nat, seen: seq<real>, count: nat)
    requires Shaped(e) && Spans(e.q, seen) && Ranked(e.n, count) && 1 <= i <= 3
    ensures Spans(Adjusted(e, i).q, seen) && Ranked(Adjusted(e, i).n, count)
  {
    if ShouldStep(e.n, e.np, i) {
      var s := Direction(e.n, e.np, i);
      HeightBracketed(e.q, e.n, e.np, i);
      var h := Height(e.q, e.n, i, s);
      ReplaceInner(e.q, i, h);
      WholeStep(e.n, i, s);
    }
  }

  // ---- one observation ----

  lemma StretchSpans(q: seq<real>, x: real, seen: seq<real>)
    requires Spans(q, seen)
    ensures Spans(Stretch(q, x), seen + [x])
  {
    var r := Stretch(q, x);
    forall y | y in seen + [x] ensures r[0] <= y <= r[4] {
      assert y in seen || y == x;
    }
  }

  lemma ScheduleAdvances(p: real, count: nat, np: seq<real>, dn: seq<real>)
    requires Scheduled(p, count, np, dn)
    ensures Scheduled(p, count + 1, Advance(np, dn), dn)
  {
    forall i | 0 <= i < 5 ensures Advance(np, dn)[i] == 1.0 + dn[i] * count as real {
      assert np[i] == 1.0 + dn[i] * (count - 1) as real;
      assert dn[i] * count as real == dn[i] * (count - 1) as real + dn[i];
    }
  }

  lemma InitialSchedule(p: real)
    ensures Scheduled(p, 5, Initialised(p, [0.0, 0.0, 0.0, 0.0, 0.0]).np,
                            Initialised(p, [0.0, 0.0, 0.0, 0.0, 0.0]).dn)
  {
  }

  lemma SortSpans(all: seq<real>)
    requires |all| == 5
    ensures Spans(Sort(RealLeq(), all), all)
  {
    var r := Sort(RealLeq(), all);
    SortSorts(RealLeq(), all);
    SortPermutes(RealLeq(), all);
    forall i, j | 0 <= i < j < 5 ensures r[i] <= r[j] {
      assert RealLeq()(r[i], r[j]);
    }
    assert r[0] in multiset(r) && r[4] in multiset(r);
    forall y | y in all ensures r[0] <= y <= r[4] {
      assert y in multiset(all);
      assert y in r;
    }
  }

  lemma WarmUpEarly(e: Estimator, x: real, seen: seq<real>)
    requires Tracks(e, seen) && e.count < 4
    ensures Tracks(Observed(e, Finite(x)), seen + [x])
  {
    assert e.q[e.count := x][..e.count + 1] == e.q[..e.count] + [x];
  }

  lemma WarmUpLast(e: Estimator, x: real, seen: seq<real>)
    requires Tracks(e, seen) && e.count == 4
    ensures Tracks(Observed(e, Finite(x)), seen + [x])
  {
    var q := e.q[4 := x];
    assert q == e.q[..4] + [x];
    SortSpans(q);
    InitialSchedule(e.p);
    assert Observed(e, Finite(x)) == Initialised(e.p, q);
    assert Ranked([1.0, 2.0, 3.0, 4.0, 5.0], 5);
  }

  lemma SteadyStep(e: Estimator, x: real, seen: seq<real>)
    requires Tracks(e, seen) && e.count >= 5
    ensures Tracks(Observed(e, Finite(x)), seen + [x])
  {
    var a := Relocated(e, x);
    var c := e.count + 1;
    StretchSpans(e.q, x, seen);
    WholeShift(e.n, Cell(e.q, x));
    ScheduleAdvances(e.p, e.count, e.np, e.dn);
    assert Ranked(a.n, c);
    AdjustedKeeps(a, 1, seen + [x], c);
    AdjustedKeeps(Adjusted(a, 1), 2, seen + [x], c);
    AdjustedKeeps(Adjusted(Adjusted(a, 1), 2), 3, seen + [x], c);
  }

  lemma ObservedTracks(e: Estimator, o: F64, seen: seq<real>)
    requires Tracks(e, seen)
    ensures Tracks(Observed(e, o), if o.Finite? then seen + [o.x] else seen)
  {
    if o.Finite? {
      if e.count >= 5 { SteadyStep(e, o.x, seen); }
      else if e.count == 4 { WarmUpLast(e, o.x, seen); }
      else { WarmUpEarly(e, o.x, seen); }
    }
  }

  // ---- whole streams ----

  /** The invariant holds after every stream: sorted heights, integral and strictly
      increasing positions from 1 to the count, desired positions in closed form, and
      outer markers that are the exact extremes of everything observed. */
  lemma {:induction false} StreamTracks(p: real, os: seq<F64>)
    requires 0.0 < p < 1.0
    ensures Tracks(Stream(p, os), Samples(os))
  {
    if os != [] {
      var front := os[..|os| - 1];
      StreamTracks(p, front);
      ObservedTracks(Stream(p, front), os[|os| - 1], Samples(front));
      assert Samples(front) + [] == Samples(front);
    }
  }

  /** From the fifth sample on the estimate lies between the extremes of the stream. */
  lemma EstimateInRange(p: real, os: seq<F64>)
    requires 0.0 < p < 1.0 && |Samples(os)| >= 5
    ensures exists lo, hi :: IsMin(lo, Samples(os)) && IsMax(hi, Samples(os))
                             && lo <= Estimate(Stream(p, os)) <= hi
  {
    StreamTracks(p, os);
    var e := Stream(p, os);
    assert IsMin(e.q[0], Samples(os)) && IsMax(e.q[4], Samples(os));
  }

  /** Before the fifth sample the estimate is the newest sample (0 before any). */
  lemma WarmUpEstimate(p: real, os: seq<F64>)
    requires 0.0 < p < 1.0 && |Samples(os)| < 5
    ensures var s := Samples(os);
            Estimate(Stream(p, os)) == if s == [] then 0.0 else s[|s| - 1]
  {
    StreamTracks(p, os);
    var e := Stream(p, os);
    var s := Samples(os);
    if s != [] { assert e.q[..e.count][e.count - 1] == s[|s| - 1]; }
  }

  /** The documentation says the warm-up estimate is the largest sample so far; that is so
      exactly when no earlier sample exceeds the newest one. */
  lemma WarmUpIsLargest(p: real, os: seq<F64>)
    requires 0.0 < p < 1.0 && 1 <= |Samples(os)| < 5
    ensures var s := Samples(os);
            IsMax(Estimate(Stream(p, os)), s)
            <==> forall i :: 0 <= i < |s| - 1 ==> s[i] <= s[|s| - 1]
  {
    WarmUpEstimate(p, os);
    var s := Samples(os);
    if forall i :: 0 <= i < |s| - 1 ==> s[i] <= s[|s| - 1] {
      forall y | y in s ensures y <= s[|s| - 1] {
        var i :| 0 <= i < |s| && s[i] == y;
      }
    } else {
      var i :| 0 <= i < |s| - 1 && s[i] > s[|s| - 1];
      assert s[i] in s;
    }
  }

  lemma WarmUpNotLargest()
    ensures Samples([Finite(5.0), Finite(1.0)]) == [5.0, 1.0]
    ensures Estimate(Stream(0.5, [Finite(5.0), Finite(1.0)])) == 1.0
  {
    var os := [Finite(5.0), Finite(1.0)];
    assert os[..1] == [Finite(5.0)] && os[..1][..0] == [];
    assert Samples(os[..1]) == Samples(os[..1][..0]) + [5.0];
    WarmUpEstimate(0.5, os);
  }

  // ---- the parabola ----

  function Quadratic(a: real, b: real, c: real, t: real): real {
    a * t * t + b * t + c
  }

  lemma SlopeOfQuadratic(a: real, b: real, c: real, h: real)
    requires h != 0.0
    ensures (Quadratic(a, b, c, h) - c) / h == a * h + b
  {
    assert Quadratic(a, b, c, h) - c == (a * h + b) * h;
  }

  /** Through a parabola `t -> a t^2 + b t + c` centred on the marker, with neighbours at
      distance h1 before and h2 after, the parabolic prediction is the parabola's value at
      the new position. */
  lemma PredictionOnParabola(a: real, b: real, c: real, h1: real, h2: real, s: real)
    requires h1 > 0.0 && h2 > 0.0 && (s == 1.0 || s == -1.0)
    ensures c + (s / (h1 + h2)) * ((h1 + s) * (b + a * h2) + (h2 - s) * (b - a * h1))
            == Quadratic(a, b, c, s)
  {
    var w := h1 + h2;
    assert (h1 + s) * (b + a * h2) + (h2 - s) * (b - a * h1) == (b + a * s) * w;
    assert (s / w) * ((b + a * s) * w) == s * (b + a * s) by {
      var z := s / w;
      assert z * w == s;
      assert z * ((b + a * s) * w) == (z * w) * (b + a * s);
    }
  }

  /** The quadratic with value `q[i]` at marker `i` that also meets both neighbours. */
  ghost predicate ThroughMarkers(q: seq<real>, n: seq<real>, i: nat, a: real, b: real)
    requires |q| == 5 && PositionsIncrease(n) && 1 <= i <= 3
  {
    && Quadratic(a, b, q[i], n[i + 1] - n[i]) == q[i + 1]
    && Quadratic(a, b, q[i], n[i - 1] - n[i]) == q[i - 1]
  }

  /** Any quadratic through the three neighbouring markers takes the predicted height at the
      marker's new position. */
  lemma ParabolicInterpolates(q: seq<real>, n: seq<real>, i: nat, s: real, a: real, b: real)
    requires |q| == 5 && PositionsIncrease(n) && 1 <= i <= 3 && (s == 1.0 || s == -1.0)
    requires ThroughMarkers(q, n, i, a, b)
    ensures Parabolic(q, n, i, s) == Quadratic(a, b, q[i], s)
  {
    var h1, h2 := n[i] - n[i - 1], n[i + 1] - n[i];
    SlopeOfQuadratic(a, b, q[i], h2);
    assert (q[i] - q[i - 1]) / h1 == b - a * h1 by {
      assert n[i - 1] - n[i] == -h1;
      assert q[i] - q[i - 1] == (b - a * h1) * h1;
    }
    assert n[i + 1] - n[i - 1] == h1 + h2;
    PredictionOnParabola(a, b, q[i], h1, h2, s);
  }

  /** Exactly one such quadratic exists. */
  lemma ParabolaUnique(q: seq<real>, n: seq<real>, i: nat) returns (a: real, b: real)
    requires |q| == 5 && PositionsIncrease(n) && 1 <= i <= 3
    ensures ThroughMarkers(q, n, i, a, b)
    ensures forall a', b' :: ThroughMarkers(q, n, i, a', b') ==> a' == a && b' == b
  {
    var h1, h2 := n[i] - n[i - 1], n[i + 1] - n[i];
    assert n[i - 1] - n[i] == -h1;
    a, b := MakeParabola(q[i], h1, h2, q[i - 1], q[i + 1]);
    forall a', b' | ThroughMarkers(q, n, i, a', b') ensures a' == a && b' == b {
      SameParabola(q[i], h1, h2, a, b, a', b');
    }
  }

  lemma MakeParabola(c: real, h1: real, h2: real, l: real, r: real)
    returns (a: real, b: real)
    requires h1 > 0.0 && h2 > 0.0
    ensures Quadratic(a, b, c, h2) == r && Quadratic(a, b, c, -h1) == l
  {
    var f, g := (r - c) / h2, (c - l) / h1;
    a := (f - g) / (h1 + h2);
    b := f - a * h2;
    assert a * (h1 + h2) == f - g;
    assert a * h1 + a * h2 == f - g;
    ParabolaAt(a, b, c, h2);
    assert a * h2 + b == f;
    ParabolaAt(a, b, c, -h1);
    assert a * (-h1) + b == g;
    assert g * (-h1) == -(g * h1);
  }

  lemma SameParabola(c: real, h1: real, h2: real, a: real, b: real, a': real, b': real)
    requires h1 > 0.0 && h2 > 0.0
    requires Quadratic(a, b, c, h2) == Quadratic(a', b', c, h2)
    requires Quadratic(a, b, c, -h1) == Quadratic(a', b', c, -h1)
    ensures a == a' && b == b'
  {
    SlopeOfQuadratic(a, b, c, h2);
    SlopeOfQuadratic(a, b, c, -h1);
    SlopeOfQuadratic(a', b', c, h2);
    SlopeOfQuadratic(a', b', c, -h1);
    SameLine(h1, h2, a, b, a', b');
  }

  lemma SameLine(h1: real, h2: real, a: real, b: real, a': real, b': real)
    requires h1 > 0.0 && h2 > 0.0
    requires a * h2 + b == a' * h2 + b' && a * (-h1) + b == a' * (-h1) + b'
    ensures a == a' && b == b'
  {
    var d, w := a' - a, h1 + h2;
    assert d * w == 0.0;
    SignOfProduct(d, w);
  }

  lemma SignOfProduct(d: real, w: real)
    requires w > 0.0
    ensures d > 0.0 ==> d * w > 0.0
    ensures d < 0.0 ==> d * w < 0.0
  {
  }

  lemma ParabolaAt(a: real, b: real, c: real, t: real)
    ensures Quadratic(a, b, c, t) == (a * t + b) * t + c
  {
  }
}
