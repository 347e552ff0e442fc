/** The P-square single-quantile estimator (Jain and Chlamtac, CACM 28(10), 1985):
    five markers, a cell search, and a parabolic step with a linear fallback.
    Reals stand for the f64 cells. */
module P2Estimator {
  import opened Floats
  import opened Sorting

  datatype Estimator = Estimator(
    p: real, count: nat, q: seq<real>, n: seq<real>, np: seq<real>, dn: seq<real>)

  ghost predicate Shaped(e: Estimator) {
    0.0 < e.p < 1.0 && |e.q| == 5 && |e.n| == 5 && |e.np| == 5 && |e.dn| == 5
  }

  ghost predicate PositionsIncrease(n: seq<real>) {
    |n| == 5 && n[0] < n[1] < n[2] < n[3] < n[4]
  }

  /** What every division needs: distinct marker positions once warmed up. */
  ghost predicate Placed(e: Estimator) {
    Shaped(e) && (e.count >= 5 ==> PositionsIncrease(e.n))
  }

  function RealLeq(): (real, real) -> bool { (a, b) => a <= b }

  // ---- the pieces of `observe` ----

  function Fresh(p: real): Estimator {
    Estimator(p, 0, [0.0, 0.0, 0.0, 0.0, 0.0], [0.0, 0.0, 0.0, 0.0, 0.0],
              [0.0, 0.0, 0.0, 0.0, 0.0], [0.0, 0.0, 0.0, 0.0, 0.0])
  }

  /** Marker positions and their increments when the fifth observation arrives. */
  function Initialised(p: real, q: seq<real>): Estimator {
    Estimator(p, 5, Sort(RealLeq(), q), [1.0, 2.0, 3.0, 4.0, 5.0],
              [1.0, 1.0 + 2.0 * p, 1.0 + 4.0 * p, 3.0 + 2.0 * p, 5.0],
              [0.0, p / 2.0, p, (1.0 + p) / 2.0, 1.0])
  }

  function Cell(q: seq<real>, x: real): (k: nat)
    requires |q| == 5
    ensures k <= 3
  {
    if x < q[0] || x < q[1] then 0 else if x < q[2] then 1 else if x < q[3] then 2 else 3
  }

  function Stretch(q: seq<real>, x: real): (r: seq<real>)
    requires |q| == 5
    ensures |r| == 5
  {
    if x < q[0] then q[0 := x]
    else if x < q[1] || x < q[2] || x < q[3] || x < q[4] then q
    else q[4 := x]
  }

  function ShiftAbove(n: seq<real>, k: nat): (r: seq<real>)
    ensures |r| == |n|
  {
    seq(|n|, i requires 0 <= i < |n| => if i > k then n[i] + 1.0 else n[i])
  }

  function Advance(np: seq<real>, dn: seq<real>): (r: seq<real>)
    requires |np| == |dn|
    ensures |r| == |np|
  {
    seq(|np|, i requires 0 <= i < |np| => np[i] + dn[i])
  }

  predicate ShouldStep(n: seq<real>, np: seq<real>, i: nat)
    requires |n| == 5 && |np| == 5 && 1 <= i <= 3
  {
    var d := np[i] - n[i];
    (d >= 1.0 && n[i + 1] - n[i] > 1.0) || (d <= -1.0 && n[i - 1] - n[i] < -1.0)
  }

  function Direction(n: seq<real>, np: seq<real>, i: nat): real
    requires |n| == 5 && |np| == 5 && 1 <= i <= 3
  {
    if np[i] - n[i] >= 0.0 then 1.0 else -1.0
  }

  function Parabolic(q: seq<real>, n: seq<real>, i: nat, sign: real): real
    requires |q| == 5 && PositionsIncrease(n) && 1 <= i <= 3
  {
    var span := n[i + 1] - n[i - 1];
    var forwardSlope := (q[i + 1] - q[i]) / (n[i + 1] - n[i]);
    var backwardSlope := (q[i] - q[i - 1]) / (n[i] - n[i - 1]);
    q[i] + (sign / span) * ((n[i] - n[i - 1] + sign) * forwardSlope
                            + (n[i + 1] - n[i] - sign) * backwardSlope)
  }

  /** One position from height x towards height y, `h` positions away. */
  function Toward(x: real, y: real, h: real, sign: real): real
    requires h != 0.0
  {
    x + sign * (y - x) / h
  }

  function Linear(q: seq<real>, n: seq<real>, i: nat, sign: real): real
    requires |q| == 5 && PositionsIncrease(n) && 1 <= i <= 3
  {
    var j := if sign > 0.0 then i + 1 else i - 1;
    Toward(q[i], q[j], n[j] - n[i], sign)
  }

  function Height(q: seq<real>, n: seq<real>, i: nat, sign: real): real
    requires |q| == 5 && PositionsIncrease(n) && 1 <= i <= 3
  {
    var par := Parabolic(q, n, i, sign);
    if q[i - 1] < par < q[i + 1] then par else Linear(q, n, i, sign)
  }

  /** Move interior marker `i` one position if it lags its desired position. */
  function Adjusted(e: Estimator, i: nat): (r: Estimator)
    requires Shaped(e) && PositionsIncrease(e.n) && 1 <= i <= 3
    ensures Shaped(r) && PositionsIncrease(r.n)
    ensures r.p == e.p && r.count == e.count && r.np == e.np && r.dn == e.dn
  {
    if !ShouldStep(e.n, e.np, i) then e
    else
      var s := Direction(e.n, e.np, i);
      e.(q := e.q[i := Height(e.q, e.n, i, s)], n := e.n[i := e.n[i] + s])
  }

  function Relocated(e: Estimator, x: real): (r: Estimator)
    requires Shaped(e) && PositionsIncrease(e.n)
    ensures Shaped(r) && PositionsIncrease(r.n)
  {
    e.(q := Stretch(e.q, x), n := ShiftAbove(e.n, Cell(e.q, x)), np := Advance(e.np, e.dn))
  }

  function Observed(e: Estimator, o: F64): (r: Estimator)
    requires Placed(e)
    ensures Placed(r) && r.p == e.p
    ensures r.count == if o.NonFinite? then e.count else e.count + 1
  {
    if o.NonFinite? then e
    else if e.count < 5 then
      var q := e.q[e.count := o.x];
      if e.count == 4 then Initialised(e.p, q) else e.(q := q, count := e.count + 1)
    else
      var a := Adjusted(Adjusted(Adjusted(Relocated(e, o.x), 1), 2), 3);
      a.(count := e.count + 1)
  }

  function Estimate(e: Estimator): real
    requires Shaped(e)
  {
    if e.count == 0 then 0.0
    else if e.count < 5 then e.q[if e.count - 1 < 4 then e.count - 1 else 4]
    else e.q[2]
  }

  /** The state after a whole stream. */
  function Stream(p: real, os: seq<F64>): (e: Estimator)
    requires 0.0 < p < 1.0
    ensures Placed(e) && e.p == p
  {
    if os == [] then Fresh(p) else Observed(Stream(p, os[..|os| - 1]), os[|os| - 1])
  }

  /** The finite observations of a stream, in order. */
  function Samples(os: seq<F64>): seq<real> {
    if os == [] then []
    else
      var o := os[|os| - 1];
      Samples(os[..|os| - 1]) + if o.Finite? then [o.x] else []
  }

  // ---- the estimator object ----

  class P2Quantile {
    const p: real
    var count: nat
    const q: array<real>
    const n: array<real>
    const np: array<real>
    const dn: array<real>

    ghost predicate Apart() {
      && q.Length == 5 && n.Length == 5 && np.Length == 5 && dn.Length == 5
      && q != n && q != np && q != dn && n != np && n != dn && np != dn
    }

    ghost function State(): Estimator
      reads this, q, n, np, dn
    {
      Estimator(p, count, q[..], n[..], np[..], dn[..])
    }

    ghost predicate Valid()
      reads this, q, n, np, dn
    {
      Apart() && Placed(State())
    }

    constructor (p: real)
      requires 0.0 < p < 1.0
      ensures Valid() && State() == Fresh(p)
      ensures fresh(q) && fresh(n) && fresh(np) && fresh(dn)
    {
      this.p, count := p, 0;
      q, n := new real[5](_ => 0.0), new real[5](_ => 0.0);
      np, dn := new real[5](_ => 0.0), new real[5](_ => 0.0);
      new;
      assert q[..] == [0.0, 0.0, 0.0, 0.0, 0.0] && n[..] == q[..] && np[..] == q[..] && dn[..] == q[..];
    }

    method Estimated() returns (r: real)
      requires Valid()
      ensures r == Estimate(State())
    {
      if count == 0 { return 0.0; }
      if count < 5 { return q[if count - 1 < 4 then count - 1 else 4]; }
      return q[2];
    }

    method Observe(o: F64)
      requires Valid()
      modifies this`count, q, n, np, dn
      ensures Valid() && State() == Observed(old(State()), o)
    {
      if o.NonFinite? { return; }
      if count < 5 {
        q[count] := o.x;
        count := count + 1;
        if count == 5 { InitialiseMarkers(); }
        return;
      }
      Relocate(o.x);
      var i := 1;
      ghost var e := State();
      while i <= 3
        invariant 1 <= i <= 4 && Apart() && count == old(count)
        invariant Shaped(State()) && PositionsIncrease(n[..]) && Shaped(e) && PositionsIncrease(e.n)
        invariant State() == (if i == 1 then e else if i == 2 then Adjusted(e, 1)
                              else if i == 3 then Adjusted(Adjusted(e, 1), 2)
                              else Adjusted(Adjusted(Adjusted(e, 1), 2), 3))
      {
        AdjustMarker(i);
        i := i + 1;
      }
      count := count + 1;
    }

    method InitialiseMarkers()
      requires Apart() && 0.0 < p < 1.0 && count == 5
      modifies q, n, np, dn
      ensures State() == Initialised(p, old(q[..]))
    {
      SortHeights();
      for i := 0 to 5
        invariant forall j :: 0 <= j < i ==> n[j] == (j + 1) as real
        invariant q[..] == Sort(RealLeq(), old(q[..]))
      {
        n[i] := (i + 1) as real;
      }
      np[0], np[1], np[2] := 1.0, 1.0 + 2.0 * p, 1.0 + 4.0 * p;
      np[3], np[4] := 3.0 + 2.0 * p, 5.0;
      dn[0], dn[1], dn[2], dn[3], dn[4] := 0.0, p / 2.0, p, (1.0 + p) / 2.0, 1.0;
      assert n[..] == [1.0, 2.0, 3.0, 4.0, 5.0];
      assert np[..] == [1.0, 1.0 + 2.0 * p, 1.0 + 4.0 * p, 3.0 + 2.0 * p, 5.0];
      assert dn[..] == [0.0, p / 2.0, p, (1.0 + p) / 2.0, 1.0];
    }

    /** The library sort on the height array. */
    method SortHeights()
      requires q.Length == 5
      modifies q
      ensures q[..] == Sort(RealLeq(), old(q[..]))
    {
      var sorted := Sort(RealLeq(), q[..]);
      for i := 0 to 5
        invariant forall j :: 0 <= j < i ==> q[j] == sorted[j]
      {
        q[i] := sorted[i];
      }
    }

    /** Cell search, extreme markers, and both position shifts. */
    method Relocate(x: real)
      requires Apart() && Shaped(State()) && PositionsIncrease(n[..])
      modifies q, n, np
      ensures State() == Relocated(old(State()), x)
    {
      var k: nat;
      if x < q[0] { q[0] := x; k := 0; }
      else if x < q[1] { k := 0; }
      else if x < q[2] { k := 1; }
      else if x < q[3] { k := 2; }
      else if x < q[4] { k := 3; }
      else { q[4] := x; k := 3; }
      assert q[..] == Stretch(old(q[..]), x) && k == Cell(old(q[..]), x);
      for i := k + 1 to 5
        invariant forall j :: 0 <= j < 5 ==> n[j] == old(n[j]) + if k < j < i then 1.0 else 0.0
        invariant q[..] == Stretch(old(q[..]), x) && np[..] == old(np[..])
      {
        n[i] := n[i] + 1.0;
      }
      for i := 0 to 5
        invariant forall j :: 0 <= j < 5 ==> np[j] == old(np[j]) + if j < i then dn[j] else 0.0
        invariant forall j :: 0 <= j < 5 ==> n[j] == old(n[j]) + if k < j then 1.0 else 0.0
        invariant q[..] == Stretch(old(q[..]), x)
      {
        np[i] := np[i] + dn[i];
      }
      assert n[..] == ShiftAbove(old(n[..]), k);
      assert np[..] == Advance(old(np[..]), dn[..]);
    }

    /** One turn of the adjustment loop. */
    method AdjustMarker(i: nat)
      requires Apart() && Shaped(State()) && PositionsIncrease(n[..]) && 1 <= i <= 3
      modifies q, n
      ensures State() == Adjusted(old(State()), i)
    {
      var d := np[i] - n[i];
      var forwardGap := n[i + 1] - n[i];
      var backwardGap := n[i - 1] - n[i];
      if !((d >= 1.0 && forwardGap > 1.0) || (d <= -1.0 && backwardGap < -1.0)) { return; }
      var sign := if d >= 0.0 then 1.0 else -1.0;
      var span := n[i + 1] - n[i - 1];
      var forwardSlope := (q[i + 1] - q[i]) / (n[i + 1] - n[i]);
      var backwardSlope := (q[i] - q[i - 1]) / (n[i] - n[i - 1]);
      var par := q[i] + (sign / span) * ((n[i] - n[i - 1] + sign) * forwardSlope
                                         + (n[i + 1] - n[i] - sign) * backwardSlope);
      assert par == Parabolic(q[..], n[..], i, sign);
      var j := if sign > 0.0 then i + 1 else i - 1;
      var height := if q[i - 1] < par && par < q[i + 1] then par
                    else q[i] + sign * (q[j] - q[i]) / (n[j] - n[i]);
      assert height == Height(q[..], n[..], i, sign);
      q[i] := height;
      n[i] := n[i] + sign;
    }
  }
}
