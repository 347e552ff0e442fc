/** The P-square estimator commutes with positive affine changes of unit: two estimators
    fed x and a*x + b in parallel keep identical positions and mapped heights. */
module P2Affine {
  import opened Floats
  import opened Sorting
  import opened P2Estimator

  /** The change of unit: a times x plus b. */
  function Aff(a: real, b: real, x: real): real { a * x + b }

  function Rescaled(a: real, b: real, os: seq<F64>): (r: seq<F64>)
    ensures |r| == |os|
  {
    if os == [] then []
    else
      var o := os[|os| - 1];
      Rescaled(a, b, os[..|os| - 1]) + [if o.Finite? then Finite(Aff(a, b, o.x)) else NonFinite]
  }

  ghost predicate Mapped(a: real, b: real, q: seq<real>, r: seq<real>) {
    |q| == |r| && forall i :: 0 <= i < |q| ==> r[i] == Aff(a, b, q[i])
  }

  /** `f` is `e` in the other unit. */
  ghost predicate Parallel(a: real, b: real, e: Estimator, f: Estimator) {
    && Placed(e) && Placed(f)
    && f.p == e.p && f.count == e.count && f.n == e.n && f.np == e.np && f.dn == e.dn
    && (if e.count < 5 then Mapped(a, b, e.q[..e.count], f.q[..e.count]) else Mapped(a, b, e.q, f.q))
  }

  lemma AffOrder(a: real, b: real, x: real, y: real)
    requires a > 0.0
    ensures Aff(a, b, x) < Aff(a, b, y) <==> x < y
    ensures Aff(a, b, x) <= Aff(a, b, y) <==> x <= y
  {
    if x < y { assert a * (y - x) > 0.0; }
    if y < x { assert a * (x - y) > 0.0; }
  }

  lemma AffOrderAll(a: real, b: real)
    requires a > 0.0
    ensures forall x, y :: Aff(a, b, x) < Aff(a, b, y) <==> x < y
    ensures forall x, y :: Aff(a, b, x) <= Aff(a, b, y) <==> x <= y
  {
    forall x, y ensures (Aff(a, b, x) < Aff(a, b, y) <==> x < y)
                     && (Aff(a, b, x) <= Aff(a, b, y) <==> x <= y) {
      AffOrder(a, b, x, y);
    }
  }

  lemma SlopeScales(a: real, b: real, x: real, y: real, h: real)
    requires h != 0.0
    ensures (Aff(a, b, y) - Aff(a, b, x)) / h == a * ((y - x) / h)
  {
    var z := (y - x) / h;
    assert z * h == y - x;
    assert Aff(a, b, y) - Aff(a, b, x) == (a * z) * h;
  }

  lemma CombineScales(a: real, b: real, c: real, w: real, u: real, f: real, v: real, g: real)
    ensures Aff(a, b, c) + w * (u * (a * f) + v * (a * g)) == Aff(a, b, c + w * (u * f + v * g))
  {
    assert u * (a * f) == a * (u * f) && v * (a * g) == a * (v * g);
    assert u * (a * f) + v * (a * g) == a * (u * f + v * g);
    assert w * (a * (u * f + v * g)) == a * (w * (u * f + v * g));
  }

  lemma ParabolicScales(a: real, b: real, q: seq<real>, r: seq<real>, n: seq<real>, i: nat, s: real)
    requires |q| == 5 && Mapped(a, b, q, r) && PositionsIncrease(n) && 1 <= i <= 3
    ensures Parabolic(r, n, i, s) == Aff(a, b, Parabolic(q, n, i, s))
  {
    SlopeScales(a, b, q[i], q[i + 1], n[i + 1] - n[i]);
    SlopeScales(a, b, q[i - 1], q[i], n[i] - n[i - 1]);
    CombineScales(a, b, q[i], s / (n[i + 1] - n[i - 1]),
                  n[i] - n[i - 1] + s, (q[i + 1] - q[i]) / (n[i + 1] - n[i]),
                  n[i + 1] - n[i] - s, (q[i] - q[i - 1]) / (n[i] - n[i - 1]));
  }

  lemma LinearScales(a: real, b: real, q: seq<real>, r: seq<real>, n: seq<real>, i: nat, s: real)
    requires |q| == 5 && Mapped(a, b, q, r) && PositionsIncrease(n) && 1 <= i <= 3
    requires s == 1.0 || s == -1.0
    ensures Linear(r, n, i, s) == Aff(a, b, Linear(q, n, i, s))
  {
    var j := if s > 0.0 then i + 1 else i - 1;
    StepScales(a, b, q[i], q[j], n[j] - n[i], s);
  }

  lemma StepScales(a: real, b: real, x: real, y: real, h: real, s: real)
    requires h != 0.0 && (s == 1.0 || s == -1.0)
    ensures Toward(Aff(a, b, x), Aff(a, b, y), h, s) == Aff(a, b, Toward(x, y, h, s))
  {
    var u := s * (y - x);
    var z := u / h;
    assert z * h == u;
    assert Aff(a, b, y) - Aff(a, b, x) == a * (y - x);
    assert s * (Aff(a, b, y) - Aff(a, b, x)) == a * u;
    assert (a * z) * h == a * u by { assert a * (z * h) == (a * z) * h; }
  }

  lemma HeightScales(a: real, b: real, q: seq<real>, r: seq<real>, n: seq<real>, i: nat, s: real)
    requires a > 0.0 && |q| == 5 && Mapped(a, b, q, r) && PositionsIncrease(n) && 1 <= i <= 3
    requires s == 1.0 || s == -1.0
    ensures Height(r, n, i, s) == Aff(a, b, Height(q, n, i, s))
  {
    ParabolicScales(a, b, q, r, n, i, s);
    LinearScales(a, b, q, r, n, i, s);
    AffOrder(a, b, q[i - 1], Parabolic(q, n, i, s));
    AffOrder(a, b, Parabolic(q, n, i, s), q[i + 1]);
  }

  lemma AdjustedScales(a: real, b: real, e: Estimator, f: Estimator, i: nat)
    requires a > 0.0 && Parallel(a, b, e, f) && e.count >= 5 && 1 <= i <= 3
    ensures Parallel(a, b, Adjusted(e, i), Adjusted(f, i))
  {
    if ShouldStep(e.n, e.np, i) {
      HeightScales(a, b, e.q, f.q, e.n, i, Direction(e.n, e.np, i));
    }
  }

  lemma RelocatedScales(a: real, b: real, e: Estimator, f: Estimator, x: real)
    requires a > 0.0 && Parallel(a, b, e, f) && e.count >= 5
    ensures Parallel(a, b, Relocated(e, x), Relocated(f, Aff(a, b, x)))
  {
    forall i | 0 <= i < 5
      ensures x < e.q[i] <==> Aff(a, b, x) < f.q[i]
    {
      AffOrder(a, b, x, e.q[i]);
    }
  }

  lemma SortScales(a: real, b: real, q: seq<real>, r: seq<real>)
    requires a > 0.0 && Mapped(a, b, q, r)
    ensures Mapped(a, b, Sort(RealLeq(), q), Sort(RealLeq(), r))
  {
    AffOrderAll(a, b);
    var f := x => Aff(a, b, x);
    assert r == Map(f, q);
    SortCommutes(RealLeq(), f, q);
  }

  lemma ObservedScales(a: real, b: real, e: Estimator, f: Estimator, x: real)
    requires a > 0.0 && Parallel(a, b, e, f)
    ensures Parallel(a, b, Observed(e, Finite(x)), Observed(f, Finite(Aff(a, b, x))))
  {
    if e.count >= 5 {
      var e0, f0 := Relocated(e, x), Relocated(f, Aff(a, b, x));
      RelocatedScales(a, b, e, f, x);
      AdjustedScales(a, b, e0, f0, 1);
      AdjustedScales(a, b, Adjusted(e0, 1), Adjusted(f0, 1), 2);
      AdjustedScales(a, b, Adjusted(Adjusted(e0, 1), 2), Adjusted(Adjusted(f0, 1), 2), 3);
    } else {
      var q, r := e.q[e.count := x], f.q[e.count := Aff(a, b, x)];
      forall i | 0 <= i < e.count + 1 ensures r[i] == Aff(a, b, q[i]) {
        if i < e.count { assert e.q[..e.count][i] == q[i] && f.q[..e.count][i] == r[i]; }
      }
      if e.count == 4 { SortScales(a, b, q, r); }
    }
  }

  /** Over two whole parallel runs the states stay related marker by marker. */
  lemma {:induction false} StreamScales(p: real, a: real, b: real, os: seq<F64>)
    requires 0.0 < p < 1.0 && a > 0.0
    ensures Parallel(a, b, Stream(p, os), Stream(p, Rescaled(a, b, os)))
  {
    if os != [] {
      var front, o := os[..|os| - 1], os[|os| - 1];
      var gs := Rescaled(a, b, os);
      StreamScales(p, a, b, front);
      assert gs[..|gs| - 1] == Rescaled(a, b, front);
      if o.Finite? {
        ObservedScales(a, b, Stream(p, front), Stream(p, Rescaled(a, b, front)), o.x);
      }
    }
  }

  /** Hence the estimate itself is equivariant as soon as there is one sample. */
  lemma EstimateScales(p: real, a: real, b: real, os: seq<F64>)
    requires 0.0 < p < 1.0 && a > 0.0 && Stream(p, os).count >= 1
    ensures Estimate(Stream(p, Rescaled(a, b, os))) == Aff(a, b, Estimate(Stream(p, os)))
  {
    StreamScales(p, a, b, os);
    var e, f := Stream(p, os), Stream(p, Rescaled(a, b, os));
    if e.count < 5 {
      assert f.q[..e.count][e.count - 1] == Aff(a, b, e.q[..e.count][e.count - 1]);
    } else {
      assert f.q[2] == Aff(a, b, e.q[2]);
    }
  }
}
