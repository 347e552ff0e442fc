/** Optimality and monotonicity of the greedy book sweep. */
module SweepLaws {
  import opened Floats
  import opened OrderBook
  import opened Trading
  import opened Wrappers

  ghost predicate Deep(levels: seq<Level>) {
    forall i :: 0 <= i < |levels| ==> levels[i].qty >= 0.0
  }

  function Depth(levels: seq<Level>): real {
    if levels == [] then 0.0 else levels[0].qty + Depth(levels[1..])
  }

  // ---- how much is filled ----

  lemma {:induction false} DepthNonNegative(levels: seq<Level>)
    requires Deep(levels)
    ensures Depth(levels) >= 0.0
  {
    if levels != [] { DepthNonNegative(levels[1..]); }
  }

  lemma {:induction false} WalkFills(levels: seq<Level>, t: real)
    requires Deep(levels) && t >= 0.0
    ensures var w := Walk(levels, t);
            w.filled == Min(t, Depth(levels)) && w.left == t - w.filled && w.filled >= 0.0
  {
    DepthNonNegative(levels);
    if levels != [] && t > 0.0 {
      var take := if levels[0].qty >= t then t else levels[0].qty;
      DepthNonNegative(levels[1..]);
      WalkFills(levels[1..], t - take);
    }
  }

  // ---- allocations ----

  /** A way of taking quantity from the levels, within what each offers. */
  ghost predicate Feasible(levels: seq<Level>, al: seq<real>) {
    |al| == |levels| && forall i :: 0 <= i < |levels| ==> 0.0 <= al[i] <= levels[i].qty
  }

  function Total(al: seq<real>): real {
    if al == [] then 0.0 else al[0] + Total(al[1..])
  }

  function Spend(amount: real, price: real, rest: real): real { amount * price + rest }

  function Cost(levels: seq<Level>, al: seq<real>): real
    requires |al| == |levels|
  {
    if al == [] then 0.0 else Spend(al[0], levels[0].price, Cost(levels[1..], al[1..]))
  }

  lemma {:induction false} TotalBounds(levels: seq<Level>, al: seq<real>)
    requires Feasible(levels, al)
    ensures 0.0 <= Total(al) <= Depth(levels)
  {
    if levels != [] { TotalBounds(levels[1..], al[1..]); }
  }

  /** The allocation the walk itself makes. */
  lemma {:induction false} WalkIsAllocation(levels: seq<Level>, t: real) returns (al: seq<real>)
    requires Deep(levels) && t >= 0.0
    ensures Feasible(levels, al)
    ensures Total(al) == Walk(levels, t).filled && Cost(levels, al) == Walk(levels, t).notional
  {
    if levels == [] {
      al := [];
    } else {
      var take := if t <= 0.0 then 0.0 else if levels[0].qty >= t then t else levels[0].qty;
      var rest := WalkIsAllocation(levels[1..], t - take);
      al := [take] + rest;
      assert al[1..] == rest;
      if t <= 0.0 { assert Walk(levels[1..], t) == Walk(levels, t); }
    }
  }

  // ---- the cost curve is convex: every further unit costs at least the best price ----

  /** Going from `w1` to `w2` costs at least `p` per unit. */
  ghost predicate Dearer(p: real, w1: Walked, w2: Walked) {
    w2.notional - w1.notional >= p * (w2.filled - w1.filled)
  }

  /** At least as good an average price in `w1` as in `w2`, cross-multiplied. */
  ghost predicate CheaperOnAverage(w1: Walked, w2: Walked) {
    w1.notional * w2.filled <= w2.notional * w1.filled
  }

  lemma {:induction false} MarginalCost(levels: seq<Level>, p: real, t1: real, t2: real)
    requires Deep(levels) && 0.0 <= t1 <= t2
    requires forall i :: 0 <= i < |levels| ==> p <= levels[i].price
    requires PricesAscend(levels)
    ensures Dearer(p, Walk(levels, t1), Walk(levels, t2))
  {
    if levels == [] || t2 <= 0.0 {
      NoMargin(p, Walk(levels, t1), Walk(levels, t2));
    } else {
      var q, rest := levels[0].qty, levels[1..];
      var k1 := if t1 <= 0.0 then 0.0 else if q >= t1 then t1 else q;
      var k2 := if q >= t2 then t2 else q;
      MarginalCost(rest, p, t1 - k1, t2 - k2);
      WalkSplit(levels, t1, k1);
      WalkSplit(levels, t2, k2);
      Marginal(p, levels[0].price, k1, k2, Walk(rest, t1 - k1), Walk(rest, t2 - k2),
               Walk(levels, t1), Walk(levels, t2));
    }
  }

  lemma NoMargin(p: real, w1: Walked, w2: Walked)
    requires w1.filled == w2.filled && w1.notional == w2.notional
    ensures Dearer(p, w1, w2)
  {
  }

  lemma Marginal(
      p: real, p0: real, k1: real, k2: real, v1: Walked, v2: Walked, w1: Walked, w2: Walked)
    requires k1 <= k2 && p <= p0
    requires Dearer(p, v1, v2)
    requires w1 == Take(k1, p0, v1) && w2 == Take(k2, p0, v2)
    ensures Dearer(p, w1, w2)
  {
    assert (k2 - k1) * (p0 - p) >= 0.0;
    assert (k2 - k1) * (p0 - p) == k2 * p0 - k1 * p0 - p * (k2 - k1);
    var x, y := k2 - k1, v2.filled - v1.filled;
    assert w2.filled - w1.filled == x + y;
    assert p * (x + y) == p * x + p * y;
  }

  /** The first level's take and the rest of the walk. */
  lemma WalkSplit(levels: seq<Level>, t: real, k: real)
    requires levels != [] && Deep(levels) && t >= 0.0
    requires k == if t <= 0.0 then 0.0 else if levels[0].qty >= t then t else levels[0].qty
    ensures Walk(levels, t) == Take(k, levels[0].price, Walk(levels[1..], t - k))
    ensures 0.0 <= k <= t && k <= levels[0].qty
  {
  }

  /** No feasible way of taking the same amount is cheaper than the walk. */
  lemma {:induction false} WalkCheapest(levels: seq<Level>, t: real, al: seq<real>)
    requires PricesAscend(levels) && Deep(levels) && Feasible(levels, al)
    requires t >= 0.0 && Total(al) == t
    ensures Walk(levels, t).notional <= Cost(levels, al)
  {
    if levels != [] {
      var p, a0, rest := levels[0].price, al[0], levels[1..];
      var k := if t <= 0.0 then 0.0 else if levels[0].qty >= t then t else levels[0].qty;
      TotalBounds(rest, al[1..]);
      WalkCheapest(rest, t - a0, al[1..]);
      WalkSplit(levels, t, k);
      MarginalCost(rest, p, t - k, t - a0);
      WalkFills(rest, t - k);
      WalkFills(rest, t - a0);
      TotalBounds(levels, al);
      Exchange(p, k, a0, Walk(rest, t - k), Walk(rest, t - a0),
               Walk(levels, t), Cost(rest, al[1..]), Cost(levels, al));
    }
  }

  lemma Exchange(p: real, k: real, a0: real, v: Walked, u: Walked, w: Walked, c: real, d: real)
    requires Dearer(p, v, u) && u.filled - v.filled == k - a0
    requires w == Take(k, p, v) && u.notional <= c && d == Spend(a0, p, c)
    ensures w.notional <= d
  {
    assert p * (k - a0) == k * p - a0 * p;
  }

  /** Average cost never falls with size: filled amounts and notionals cross-multiply. */
  lemma {:induction false} AverageRises(levels: seq<Level>, t1: real, t2: real)
    requires PricesAscend(levels) && Deep(levels) && 0.0 <= t1 <= t2
    ensures CheaperOnAverage(Walk(levels, t1), Walk(levels, t2))
  {
    if levels != [] && t1 > 0.0 {
      var q := levels[0].qty;
      WalkSplit(levels, t2, if q >= t2 then t2 else q);
      WalkSplit(levels, t1, if q >= t1 then t1 else q);
      if q >= t1 {
        AverageFirst(levels, t1, t2);
      } else {
        AverageRises(levels[1..], t1 - q, t2 - q);
        AverageBoth(levels, t1, t2);
      }
    }
  }

  lemma AverageFirst(levels: seq<Level>, t1: real, t2: real)
    requires levels != [] && PricesAscend(levels) && Deep(levels)
    requires 0.0 < t1 <= t2 && t1 <= levels[0].qty
    ensures CheaperOnAverage(Walk(levels, t1), Walk(levels, t2))
  {
    var p, q := levels[0].price, levels[0].qty;
    var k2 := if q >= t2 then t2 else q;
    var w2 := Walk(levels[1..], t2 - k2);
    WalkSplit(levels, t1, t1);
    WalkSplit(levels, t2, k2);
    var w1 := Walk(levels[1..], 0.0);
    assert w1 == Walked(0.0, 0.0, 0.0) && t1 - t1 == 0.0;
    MarginalCost(levels[1..], p, 0.0, t2 - k2);
    CrossFirst(p, t1, k2, w2, Walk(levels, t1), Walk(levels, t2));
  }

  lemma AverageBoth(levels: seq<Level>, t1: real, t2: real)
    requires levels != [] && PricesAscend(levels) && Deep(levels)
    requires 0.0 < t1 <= t2 && t1 > levels[0].qty
    requires var q := levels[0].qty;
             CheaperOnAverage(Walk(levels[1..], t1 - q), Walk(levels[1..], t2 - q))
    ensures CheaperOnAverage(Walk(levels, t1), Walk(levels, t2))
  {
    var p, q := levels[0].price, levels[0].qty;
    var w1, w2 := Walk(levels[1..], t1 - q), Walk(levels[1..], t2 - q);
    WalkSplit(levels, t1, q);
    WalkSplit(levels, t2, q);
    MarginalCost(levels[1..], p, t1 - q, t2 - q);
    CrossBoth(p, q, w1, w2, Walk(levels, t1), Walk(levels, t2));
  }

  lemma CrossFirst(p: real, k1: real, k2: real, v: Walked, w1: Walked, w2: Walked)
    requires k1 >= 0.0 && Dearer(p, Walked(0.0, 0.0, 0.0), v)
    requires w1 == Take(k1, p, Walked(0.0, 0.0, 0.0)) && w2 == Take(k2, p, v)
    ensures CheaperOnAverage(w1, w2)
  {
    var f, g := v.filled, v.notional;
    assert k1 * (g - p * f) >= 0.0;
    assert (k2 * p + g) * k1 - (k1 * p) * (k2 + f) == k1 * (g - p * f);
  }

  lemma CrossBoth(p: real, q: real, v1: Walked, v2: Walked, w1: Walked, w2: Walked)
    requires q >= 0.0 && CheaperOnAverage(v1, v2)
    requires Dearer(p, v1, v2)
    requires w1 == Take(q, p, v1) && w2 == Take(q, p, v2)
    ensures CheaperOnAverage(w1, w2)
  {
    var f1, g1, f2, g2 := v1.filled, v1.notional, v2.filled, v2.notional;
    assert q * ((g2 - g1) - p * (f2 - f1)) >= 0.0;
    assert (q * p + g2) * (q + f1) - (q * p + g1) * (q + f2)
        == q * ((g2 - g1) - p * (f2 - f1)) + (g2 * f1 - g1 * f2);
  }

  // ---- the sell side is the buy side with prices negated ----

  function Negated(levels: seq<Level>): (r: seq<Level>)
    ensures |r| == |levels|
    ensures forall i :: 0 <= i < |levels| ==> r[i] == Level(-levels[i].price, levels[i].qty)
  {
    seq(|levels|, i requires 0 <= i < |levels| => Level(-levels[i].price, levels[i].qty))
  }

  lemma {:induction false} WalkNegated(levels: seq<Level>, t: real)
    ensures var w, v := Walk(levels, t), Walk(Negated(levels), t);
            v.filled == w.filled && v.left == w.left && v.notional == -w.notional
  {
    if levels != [] && t > 0.0 {
      var take := if levels[0].qty >= t then t else levels[0].qty;
      assert Negated(levels)[1..] == Negated(levels[1..]);
      WalkNegated(levels[1..], t - take);
      MulNegates(take, levels[0].price);
    }
  }

  lemma MulNegates(x: real, y: real)
    ensures x * (-y) == -(x * y) && (-x) * y == -(x * y)
  {
  }

  lemma {:induction false} CostNegated(levels: seq<Level>, al: seq<real>)
    requires |al| == |levels|
    ensures Cost(Negated(levels), al) == -Cost(levels, al)
  {
    if levels != [] {
      assert Negated(levels)[1..] == Negated(levels[1..]);
      CostNegated(levels[1..], al[1..]);
      MulNegates(al[0], levels[0].price);
    }
  }

  /** The levels facing a side, oriented so that the walk meets ascending prices. */
  function Oriented(b: Book, side: Side): seq<Level> {
    if side.Buy? then b.Facing(side) else Negated(b.Facing(side))
  }

  lemma OrientedAscending(b: Book, side: Side)
    requires b.Sorted() && b.NonNegative()
    ensures PricesAscend(Oriented(b, side)) && Deep(Oriented(b, side)) && Deep(b.Facing(side))
    ensures Depth(Oriented(b, side)) == Depth(b.Facing(side))
  {
    if side.Sell? { DepthNegated(b.Facing(side)); }
  }

  lemma {:induction false} DepthNegated(levels: seq<Level>)
    ensures Depth(Negated(levels)) == Depth(levels)
  {
    if levels != [] {
      assert Negated(levels)[1..] == Negated(levels[1..]);
      DepthNegated(levels[1..]);
    }
  }

  // ---- main results about `Sweep` ----

  /** A sweep fills the target or the whole side, and says truthfully which. */
  lemma SweepFills(b: Book, side: Side, target: real)
    requires b.Sorted() && b.NonNegative() && Sweep(b, side, target).Some?
    ensures var r := Sweep(b, side, target).value;
            && r.filledQty == Min(target, Depth(b.Facing(side)))
            && (r.fullyFilled <==> Depth(b.Facing(side)) >= target)
  {
    OrientedAscending(b, side);
    WalkFills(b.Facing(side), target);
  }

  /** A sweep answers exactly when the target and the mid are positive and the side has
      quantity. */
  lemma SweepAnswers(b: Book, side: Side, target: real)
    requires b.Sorted() && b.NonNegative()
    ensures Sweep(b, side, target).Some?
            <==> target > 0.0 && b.Mid().Some? && b.Mid().value > 0.0 && Depth(b.Facing(side)) > 0.0
  {
    OrientedAscending(b, side);
    if target > 0.0 { WalkFills(b.Facing(side), target); }
  }

  /** The notional of a sweep is the least a buyer can pay, and the most a seller can
      receive, over every way of taking the filled quantity from the same levels; and some
      allocation attains it. */
  lemma SweepOptimal(b: Book, side: Side, target: real)
    requires b.Sorted() && b.NonNegative() && Sweep(b, side, target).Some?
    ensures var r := Sweep(b, side, target).value;
            forall al :: Feasible(b.Facing(side), al) && Total(al) == r.filledQty ==>
              if side.Buy? then r.notional <= Cost(b.Facing(side), al)
              else r.notional >= Cost(b.Facing(side), al)
    ensures var r := Sweep(b, side, target).value;
            exists al :: Feasible(b.Facing(side), al) && Total(al) == r.filledQty
                         && Cost(b.Facing(side), al) == r.notional
  {
    var r := Sweep(b, side, target).value;
    var levels := b.Facing(side);
    OrientedAscending(b, side);
    WalkFills(levels, target);
    WalkSaturates(levels, target);
    forall al | Feasible(levels, al) && Total(al) == r.filledQty
      ensures if side.Buy? then r.notional <= Cost(levels, al) else r.notional >= Cost(levels, al)
    {
      WalkCheapest(Oriented(b, side), r.filledQty, al);
      WalkNegated(levels, r.filledQty);
      CostNegated(levels, al);
    }
    var al := WalkIsAllocation(levels, target);
  }

  /** Asking for exactly what was filled walks the same way. */
  lemma {:induction false} WalkSaturates(levels: seq<Level>, t: real)
    requires Deep(levels) && t >= 0.0
    ensures Walk(levels, Walk(levels, t).filled).notional == Walk(levels, t).notional
    ensures Walk(levels, Walk(levels, t).filled).filled == Walk(levels, t).filled
  {
    WalkFills(levels, t);
    if levels != [] && t > 0.0 {
      var k := if levels[0].qty >= t then t else levels[0].qty;
      var f := Walk(levels, t).filled;
      WalkFills(levels[1..], t - k);
      WalkSaturates(levels[1..], t - k);
      WalkSplit(levels, t, k);
      assert f == k + Walk(levels[1..], t - k).filled;
      var kf := if f <= 0.0 then 0.0 else if levels[0].qty >= f then f else levels[0].qty;
      WalkSplit(levels, f, kf);
      assert kf == k;
    }
  }

  /** The side and target of an answer are those asked for; its price times the filled
      quantity is the notional; and its impact, taken back to the mid, is ten thousand times
      the adverse distance of that price from the mid, or zero if that is not adverse. */
  lemma SweepPriced(b: Book, side: Side, target: real)
    requires Sweep(b, side, target).Some?
    ensures b.bids != [] && b.asks != []
    ensures var r := Sweep(b, side, target).value;
      var mid := (b.bids[|b.bids| - 1].price + b.asks[0].price) / 2.0;
      var adverse := if side.Buy? then r.vwap - mid else mid - r.vwap;
      && r.side == side && r.targetQty == target && r.filledQty > 0.0
      && r.vwap * r.filledQty == r.notional
      && r.impactBps * mid == 10000.0 * (if adverse >= 0.0 then adverse else 0.0)
  {
    var r, mid := Sweep(b, side, target).value, b.Mid().value;
    RatioTimes(r.notional, r.filledQty);
    var adverse := if side.Buy? then r.vwap - mid else mid - r.vwap;
    BpsTimes(adverse, mid);
  }

  lemma RatioTimes(x: real, y: real)
    requires y > 0.0
    ensures x / y * y == x
  {
  }

  lemma BpsTimes(x: real, mid: real)
    requires mid > 0.0
    ensures Max(Bps(x, mid), 0.0) * mid == 10000.0 * (if x >= 0.0 then x else 0.0)
  {
    var r := x / mid;
    assert r * mid == x;
    SameSign(r, mid);
  }

  lemma SameSign(r: real, mid: real)
    requires mid > 0.0
    ensures r * mid >= 0.0 <==> r >= 0.0
  {
    if r < 0.0 { assert (-r) * mid > 0.0; }
  }

  lemma RatioOrder(g1: real, f1: real, g2: real, f2: real)
    requires f1 > 0.0 && f2 > 0.0 && g1 * f2 <= g2 * f1
    ensures g1 / f1 <= g2 / f2
  {
    var r1, r2 := g1 / f1, g2 / f2;
    assert g1 == r1 * f1 && g2 == r2 * f2;
    assert (r1 * f1) * f2 == r1 * (f1 * f2) && (r2 * f2) * f1 == r2 * (f1 * f2);
    var ff := f1 * f2;
    assert ff > 0.0 && (r2 - r1) * ff >= 0.0;
  }

  lemma SignedOrder(x: real, y: real, mid: real)
    requires mid > 0.0 && x <= y
    ensures Bps(x, mid) <= Bps(y, mid)
  {
    RatioOrder(x, mid, y, mid);
  }

  lemma AverageOrder(levels: seq<Level>, t1: real, t2: real)
    requires PricesAscend(levels) && Deep(levels) && 0.0 <= t1 <= t2
    requires Walk(levels, t1).filled > 0.0 && Walk(levels, t2).filled > 0.0
    ensures Average(Walk(levels, t1)) <= Average(Walk(levels, t2))
  {
    AverageRises(levels, t1, t2);
    CheaperRatio(Walk(levels, t1), Walk(levels, t2));
  }

  lemma CheaperRatio(w1: Walked, w2: Walked)
    requires w1.filled > 0.0 && w2.filled > 0.0 && CheaperOnAverage(w1, w2)
    ensures Average(w1) <= Average(w2)
  {
    RatioOrder(w1.notional, w1.filled, w2.notional, w2.filled);
  }

  lemma AverageNegated(levels: seq<Level>, t: real)
    requires Walk(levels, t).filled > 0.0
    ensures Walk(Negated(levels), t).filled > 0.0
    ensures Average(Walk(Negated(levels), t)) == -Average(Walk(levels, t))
  {
    WalkNegated(levels, t);
    NegatedRatio(Walk(levels, t).notional, Walk(levels, t).filled);
  }

  lemma VwapMoves(b: Book, side: Side, t1: real, t2: real)
    requires b.Sorted() && b.NonNegative() && 0.0 < t1 <= t2
    requires Sweep(b, side, t1).Some? && Sweep(b, side, t2).Some?
    ensures var v1, v2 := Sweep(b, side, t1).value.vwap, Sweep(b, side, t2).value.vwap;
            if side.Buy? then v1 <= v2 else v1 >= v2
  {
    var levels := b.Facing(side);
    OrientedAscending(b, side);
    if side.Buy? {
      AverageOrder(levels, t1, t2);
    } else {
      AverageNegated(levels, t1);
      AverageNegated(levels, t2);
      AverageOrder(Negated(levels), t1, t2);
    }
  }

  /** A larger order never gets a better average price nor a smaller impact, and is answered
      whenever the smaller one is. */
  lemma SweepMonotone(b: Book, side: Side, t1: real, t2: real)
    requires b.Sorted() && b.NonNegative() && 0.0 < t1 <= t2 && Sweep(b, side, t1).Some?
    ensures Sweep(b, side, t2).Some?
    ensures var r1, r2 := Sweep(b, side, t1).value, Sweep(b, side, t2).value;
            && (if side.Buy? then r1.vwap <= r2.vwap else r1.vwap >= r2.vwap)
            && r1.impactBps <= r2.impactBps
  {
    SweepAnswers(b, side, t1);
    SweepAnswers(b, side, t2);
    VwapMoves(b, side, t1, t2);
    var mid := b.Mid().value;
    SignedOrder(Signed(side, Sweep(b, side, t1).value.vwap, mid),
                Signed(side, Sweep(b, side, t2).value.vwap, mid), mid);
  }

  /** The average price is never better than the best price on the side. */
  lemma VwapBeyondTouch(b: Book, side: Side, target: real)
    requires b.Sorted() && b.NonNegative() && Sweep(b, side, target).Some?
    ensures var v := Sweep(b, side, target).value.vwap;
            if side.Buy? then v >= b.BestAsk().value else v <= b.BestBid().value
  {
    var levels := b.Facing(side);
    OrientedAscending(b, side);
    if side.Buy? {
      AverageBeyond(levels, target);
    } else {
      AverageNegated(levels, target);
      AverageBeyond(Negated(levels), target);
      assert Negated(levels)[0].price == -levels[0].price;
      assert levels[0] == b.bids[|b.bids| - 1];
    }
  }

  lemma AverageBeyond(levels: seq<Level>, t: real)
    requires PricesAscend(levels) && Deep(levels) && t > 0.0 && Walk(levels, t).filled > 0.0
    ensures levels[0].price <= Average(Walk(levels, t))
  {
    var p, w := levels[0].price, Walk(levels, t);
    MarginalCost(levels, p, 0.0, t);
    RatioOrder(p, 1.0, w.notional, w.filled);
  }

  lemma NegatedRatio(g: real, f: real)
    requires f > 0.0
    ensures (-g) / f == -(g / f)
  {
    var r := g / f;
    assert (-r) * f == -g;
  }

  /** On an uncrossed book the clamp to zero never fires and the impact is at least half the
      spread, in basis points of the mid. */
  lemma UncrossedImpact(b: Book, side: Side, target: real)
    requires b.Sorted() && b.NonNegative() && Sweep(b, side, target).Some?
    requires b.BestBid().value <= b.BestAsk().value
    ensures var r, mid := Sweep(b, side, target).value, b.Mid().value;
            && r.impactBps == Bps(Signed(side, r.vwap, mid), mid)
            && r.impactBps >= Bps((b.BestAsk().value - b.BestBid().value) / 2.0, mid)
  {
    var r, mid := Sweep(b, side, target).value, b.Mid().value;
    VwapBeyondTouch(b, side, target);
    ImpactAtLeast((b.BestAsk().value - b.BestBid().value) / 2.0, Signed(side, r.vwap, mid), mid);
  }

  lemma ImpactAtLeast(half: real, signed: real, mid: real)
    requires mid > 0.0 && 0.0 <= half <= signed
    ensures 0.0 <= Bps(half, mid) <= Bps(signed, mid)
  {
    SignedOrder(half, signed, mid);
    RatioOrder(0.0, 1.0, half, mid);
  }
}
