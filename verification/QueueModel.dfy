/** Queue position of one resting order: how trades and depth changes at its price move the
    quantity ahead of it. Reals stand for decimals; the probability model is a parameter. */
module QueueModel {
  import opened Floats

  /** Probability, as an f64, that a decrease hits the back of the queue: from the quantity
      in front and the quantity behind. */
  type Model = (real, real) -> F64

  datatype Queue = Queue(front: real, cum: real)

  function Joined(bookQty: real): Queue { Queue(Max(bookQty, 0.0), 0.0) }

  function Traded(q: Queue, tradeQty: real): Queue {
    if tradeQty <= 0.0 then q else Queue(q.front - tradeQty, q.cum + tradeQty)
  }

  /** A model's answer as used: 1 when not finite, clamped to [0, 1] otherwise. */
  function Clamped(f: F64): real {
    if f.NonFinite? then 1.0 else Max(0.0, Min(f.x, 1.0))
  }

  function Behind(q: Queue, prev: real): real { Max(prev - q.front, 0.0) }

  /** The decrease that trades do not explain. */
  function Unexplained(q: Queue, prev: real, now: real): real { prev - now - q.cum }

  /** The front after splitting a decrease `chg` with probability `p` of hitting the back. */
  function Split(front: real, back: real, chg: real, p: real): real {
    front - (1.0 - p) * chg + Min(back - p * chg, 0.0)
  }

  function DepthChanged(q: Queue, prev: real, now: real, m: Model): Queue {
    var chg := Unexplained(q, prev, now);
    if chg <= 0.0 then Queue(Min(q.front, now), 0.0)
    else
      var back := Behind(q, prev);
      Queue(Min(Split(q.front, back, chg, Clamped(m(q.front, back))), now), 0.0)
  }

  /** The overshoot to attribute as a fill, and the queue left behind. */
  function Overshoot(q: Queue): real { if q.front < 0.0 then -q.front else 0.0 }

  function Consumed(q: Queue): Queue { if q.front < 0.0 then q.(front := 0.0) else q }

  class QueuePos {
    var frontQQty: real
    var cumTradeQty: real

    function State(): Queue
      reads this
    {
      Queue(frontQQty, cumTradeQty)
    }

    constructor (bookQtyAtPrice: real)
      ensures State() == Joined(bookQtyAtPrice)
    {
      frontQQty := if bookQtyAtPrice >= 0.0 then bookQtyAtPrice else 0.0;
      cumTradeQty := 0.0;
    }

    /** The state a tracked quote carries. */
    constructor From(q: Queue)
      ensures State() == q
    {
      frontQQty, cumTradeQty := q.front, q.cum;
    }

    method OnTrade(tradeQty: real)
      modifies this
      ensures State() == Traded(old(State()), tradeQty)
    {
      if tradeQty <= 0.0 { return; }
      frontQQty := frontQQty - tradeQty;
      cumTradeQty := cumTradeQty + tradeQty;
    }

    method OnDepthChange(prevQty: real, newQty: real, m: Model)
      modifies this
      ensures State() == DepthChanged(old(State()), prevQty, newQty, m)
    {
      var chg := prevQty - newQty - cumTradeQty;
      cumTradeQty := 0.0;
      if chg <= 0.0 {
        if frontQQty > newQty { frontQQty := newQty; }
        return;
      }
      var front := frontQQty;
      var back := if prevQty - front >= 0.0 then prevQty - front else 0.0;
      var p := Clamped(m(front, back));
      var overflow := Min(back - p * chg, 0.0);
      var estFront := front - (1.0 - p) * chg + overflow;
      frontQQty := Min(estFront, newQty);
    }

    method ConsumeFill() returns (filled: real)
      modifies this
      ensures filled == Overshoot(old(State())) && State() == Consumed(old(State()))
    {
      if frontQQty < 0.0 {
        filled := -frontQQty;
        frontQQty := 0.0;
      } else {
        filled := 0.0;
      }
    }
  }

  // ---- models ----

  /** The shape both shipped models share: each side counts by a weight of its quantity. */
  function Share(g: real -> real, front: real, back: real): F64 {
    var b, f := g(Max(back, 0.0)), g(Max(front, 0.0));
    if b + f <= 0.0 then Finite(0.0) else Finite(b / (b + f))
  }

  function ShareModel(g: real -> real): Model { (front, back) => Share(g, front, back) }

  function Power1(x: real): real { x }

  function Product(x: real, y: real): (r: real)
    ensures x > 0.0 && y > 0.0 ==> r > 0.0
  {
    x * y
  }

  function Power2(x: real): real { Product(x, x) }

  /** What `ln(1 + x)` and every positive power have in common. */
  ghost predicate Weight(g: real -> real) {
    g(0.0) >= 0.0 && forall x :: x > 0.0 ==> g(x) > 0.0
  }

  /** `PowerProbQueueFunc` with exponents 1 and 2. */
  function LinearModel(): Model { ShareModel(Power1) }

  function SquareModel(): Model { ShareModel(Power2) }

  /** `LogProbQueueFunc`, for a given logarithm. */
  function LogModel(ln: real -> real): Model { ShareModel((x: real) => ln(1.0 + x)) }

  /** The model never gives the back less than its share of the queue. */
  ghost predicate AtLeastLinear(m: Model) {
    forall f, b :: f >= 0.0 && b >= 0.0 && f + b > 0.0 ==> Favours(m, f, b)
  }

  ghost predicate Favours(m: Model, f: real, b: real) {
    Clamped(m(f, b)) * (f + b) >= b
  }

  // ---- bounds that hold for every model ----

  lemma ProductBetween(p: real, c: real)
    requires 0.0 <= p <= 1.0 && c >= 0.0
    ensures 0.0 <= p * c <= c && (1.0 - p) * c == c - p * c
  {
    assert (1.0 - p) * c >= 0.0;
  }

  lemma SplitBounds(front: real, back: real, chg: real, p: real)
    requires 0.0 <= p <= 1.0 && chg >= 0.0 && back >= 0.0
    ensures front - chg <= Split(front, back, chg, p) <= front
  {
    ProductBetween(p, chg);
  }

  /** A depth update moves the front by no more than the unexplained decrease, never back,
      and never beyond the book; it leaves a fresh trade tally. */
  lemma DepthBounds(q: Queue, prev: real, now: real, m: Model)
    ensures var r, chg := DepthChanged(q, prev, now, m), Unexplained(q, prev, now);
            && r.cum == 0.0 && r.front <= now
            && (if chg <= 0.0 then r.front == Min(q.front, now)
                else Min(q.front - chg, now) <= r.front <= Min(q.front, now))
  {
    var chg := Unexplained(q, prev, now);
    if chg > 0.0 {
      var back := Behind(q, prev);
      SplitBounds(q.front, back, chg, Clamped(m(q.front, back)));
    }
  }

  /** The decrease that trades do not explain is split once: the back loses the model's share
      of it, all of it if the answer is not finite, but no more than is there; the front loses
      the rest, and never exceeds the book. Without such a decrease only the book bounds it. */
  lemma FrontLosesRest(q: Queue, prev: real, now: real, m: Model)
    ensures var chg := prev - now - q.cum;
      var behind := if prev > q.front then prev - q.front else 0.0;
      var answer := m(q.front, behind);
      var p := if answer.NonFinite? then 1.0 else if answer.x < 0.0 then 0.0 else if answer.x > 1.0 then 1.0
               else answer.x;
      var atBack := if p * chg < behind then p * chg else behind;
      var front := if chg > 0.0 then q.front - (chg - atBack) else q.front;
      DepthChanged(q, prev, now, m) == Queue(if front < now then front else now, 0.0)
  {
    var chg, back := Unexplained(q, prev, now), Behind(q, prev);
    assert back == if prev > q.front then prev - q.front else 0.0;
    SplitOnce(q.front, back, chg, Clamped(m(q.front, back)));
  }

  lemma SplitOnce(front: real, back: real, chg: real, p: real)
    ensures Split(front, back, chg, p) == front - (chg - if p * chg < back then p * chg else back)
  {
    assert (1.0 - p) * chg == chg - p * chg;
  }

  // ---- trades are counted once ----

  function TradedAll(q: Queue, ts: seq<real>): Queue {
    if ts == [] then q else Traded(TradedAll(q, ts[..|ts| - 1]), ts[|ts| - 1])
  }

  function Volume(ts: seq<real>): real {
    if ts == [] then 0.0 else Volume(ts[..|ts| - 1]) + Max(ts[|ts| - 1], 0.0)
  }

  lemma {:induction false} TradesAccumulate(q: Queue, ts: seq<real>)
    ensures TradedAll(q, ts) == Queue(q.front - Volume(ts), q.cum + Volume(ts))
  {
    if ts != [] { TradesAccumulate(q, ts[..|ts| - 1]); }
  }

  /** However a volume is split into trades, the depth update that reports the same decrease
      subtracts it exactly once. */
  lemma TradesCountedOnce(front: real, prev: real, ts: seq<real>, m: Model)
    requires front <= prev
    ensures var t := Volume(ts);
            DepthChanged(TradedAll(Queue(front, 0.0), ts), prev, prev - t, m) == Queue(front - t, 0.0)
  {
    TradesAccumulate(Queue(front, 0.0), ts);
  }

  // ---- when the front stays non-negative ----

  /** With a sound queue and book the front drops below zero exactly when the front's share
      of the decrease exceeds the front and the back's share does not exceed the back. */
  lemma FrontStaysIff(q: Queue, prev: real, now: real, m: Model)
    requires 0.0 <= q.front <= prev && now >= 0.0 && q.cum >= 0.0 && Unexplained(q, prev, now) > 0.0
    ensures var chg := Unexplained(q, prev, now);
            var p := Clamped(m(q.front, prev - q.front));
            DepthChanged(q, prev, now, m).front >= 0.0
            <==> (1.0 - p) * chg <= q.front || p * chg > prev - q.front
  {
    var chg := Unexplained(q, prev, now);
    ProductBetween(Clamped(m(q.front, prev - q.front)), chg);
  }

  lemma ShareCovers(p: real, f: real, b: real, chg: real)
    requires 0.0 <= p <= 1.0 && p * (f + b) >= b && 0.0 <= chg <= f + b && f >= 0.0 && b >= 0.0
    ensures (1.0 - p) * chg <= f
  {
    ProductBetween(p, f + b);
    assert (1.0 - p) * (f + b) <= f;
    assert (1.0 - p) * (f + b - chg) >= 0.0;
  }

  /** A model that favours the back at this split keeps the front non-negative. */
  lemma FavouredStays(q: Queue, prev: real, now: real, m: Model)
    requires 0.0 <= q.front <= prev && now >= 0.0 && q.cum >= 0.0
    requires prev > 0.0 ==> Favours(m, q.front, prev - q.front)
    ensures DepthChanged(q, prev, now, m).front >= 0.0
  {
    var chg := Unexplained(q, prev, now);
    if chg > 0.0 {
      var p := Clamped(m(q.front, prev - q.front));
      ShareCovers(p, q.front, prev - q.front, chg);
      FrontStaysIff(q, prev, now, m);
    }
  }

  /** For a given split of the queue, no later depth can drive the front negative exactly
      when the model gives the back at least its share. */
  lemma ModelSafeIff(front: real, prev: real, m: Model)
    requires 0.0 <= front <= prev && prev > 0.0
    ensures (forall now, cum :: now >= 0.0 && cum >= 0.0 ==>
               DepthChanged(Queue(front, cum), prev, now, m).front >= 0.0)
            <==> Favours(m, front, prev - front)
  {
    if Favours(m, front, prev - front) {
      forall now, cum | now >= 0.0 && cum >= 0.0
        ensures DepthChanged(Queue(front, cum), prev, now, m).front >= 0.0
      {
        FavouredStays(Queue(front, cum), prev, now, m);
      }
    } else {
      EmptiedGoesNegative(front, prev - front, m);
      assert DepthChanged(Queue(front, 0.0), prev, 0.0, m).front < 0.0;
    }
  }

  /** Emptying the level under an unfavourable split overshoots the front. */
  lemma EmptiedGoesNegative(f: real, b: real, m: Model)
    requires f >= 0.0 && b >= 0.0 && f + b > 0.0 && !Favours(m, f, b)
    ensures DepthChanged(Queue(f, 0.0), f + b, 0.0, m).front < 0.0
  {
    var p := Clamped(m(f, b));
    ProductBetween(p, f + b);
    assert Behind(Queue(f, 0.0), f + b) == b;
  }

  ghost predicate Proportional(g: real -> real, f: real, b: real) { g(b) * f == g(f) * b }

  lemma WeightsPositive(g: real -> real, f: real, b: real)
    requires Weight(g) && f >= 0.0 && b >= 0.0 && f + b > 0.0
    ensures g(b) >= 0.0 && g(f) >= 0.0 && g(b) + g(f) > 0.0
  {
    assert b > 0.0 ==> g(b) > 0.0;
    assert f > 0.0 ==> g(f) > 0.0;
    assert b == 0.0 ==> g(b) == g(0.0);
    assert f == 0.0 ==> g(f) == g(0.0);
  }

  lemma ShareTimes(g: real -> real, f: real, b: real)
    requires Weight(g) && f >= 0.0 && b >= 0.0 && f + b > 0.0
    ensures var p := Clamped(ShareModel(g)(f, b));
      0.0 <= p <= 1.0 && g(b) + g(f) > 0.0 && p * (g(b) + g(f)) == g(b)
  {
    WeightsPositive(g, f, b);
    assert Max(f, 0.0) == f && Max(b, 0.0) == b;
    Quotient(g(b), g(b) + g(f));
  }

  lemma Quotient(x: real, w: real)
    requires w > 0.0 && 0.0 <= x <= w
    ensures 0.0 <= x / w <= 1.0 && x / w * w == x
  {
    var p := x / w;
    assert p * w == x;
    QuotientInUnit(p, w, x);
  }

  lemma QuotientInUnit(p: real, w: real, x: real)
    requires w > 0.0 && 0.0 <= x <= w && p * w == x
    ensures 0.0 <= p <= 1.0
  {
    assert p < 0.0 ==> p * w < 0.0;
    assert (1.0 - p) * w >= 0.0;
    assert 1.0 - p < 0.0 ==> (1.0 - p) * w < 0.0;
  }

  /** A share model favours the back at a split exactly when the weights do. */
  lemma ShareFavoursIff(g: real -> real, f: real, b: real)
    requires Weight(g) && f >= 0.0 && b >= 0.0 && f + b > 0.0
    ensures Favours(ShareModel(g), f, b) <==> g(b) * f >= g(f) * b
  {
    ShareTimes(g, f, b);
    CompareShares(Clamped(ShareModel(g)(f, b)), g(b), g(f), f, b);
  }

  lemma CompareShares(p: real, gb: real, gf: real, f: real, b: real)
    requires gb + gf > 0.0 && p * (gb + gf) == gb
    ensures p * (f + b) >= b <==> gb * f >= gf * b
  {
    var w, d := gb + gf, p * (f + b) - b;
    assert d * w == gb * f - gf * b by {
      assert d * w == (p * w) * (f + b) - b * w;
    }
    assert d > 0.0 ==> d * w > 0.0;
    assert d < 0.0 ==> d * w < 0.0;
  }

  /** It favours the back at every split exactly when the weight is proportional to the
      quantity: whatever it gives the back it takes from the same split swapped. */
  lemma ShareModelIff(g: real -> real)
    requires Weight(g)
    ensures AtLeastLinear(ShareModel(g)) <==>
      forall f, b :: f >= 0.0 && b >= 0.0 ==> Proportional(g, f, b)
  {
    if AtLeastLinear(ShareModel(g)) {
      forall f, b | f >= 0.0 && b >= 0.0 ensures Proportional(g, f, b) {
        if f + b > 0.0 {
          assert Favours(ShareModel(g), f, b) && Favours(ShareModel(g), b, f);
          ShareFavoursIff(g, f, b);
          ShareFavoursIff(g, b, f);
        }
      }
    }
    if forall f, b :: f >= 0.0 && b >= 0.0 ==> Proportional(g, f, b) {
      forall f, b | f >= 0.0 && b >= 0.0 && f + b > 0.0 ensures Favours(ShareModel(g), f, b) {
        assert Proportional(g, f, b);
        ShareFavoursIff(g, f, b);
      }
    }
  }

  lemma LinearShare(f: real, b: real)
    requires f >= 0.0 && b >= 0.0 && f + b > 0.0
    ensures Clamped(LinearModel()(f, b)) * (f + b) == b
  {
    ShareTimes(Power1, f, b);
  }

  /** Under the linear model an unexplained decrease shrinks the front in proportion. */
  lemma LinearScalesFront(q: Queue, prev: real, now: real)
    requires 0.0 <= q.front <= prev && now >= 0.0 && q.cum >= 0.0 && Unexplained(q, prev, now) > 0.0
    ensures DepthChanged(q, prev, now, LinearModel()).front == Min(q.front * (now + q.cum) / prev, now)
    ensures DepthChanged(q, prev, now, LinearModel()).front >= 0.0
  {
    var f, b, chg := q.front, prev - q.front, Unexplained(q, prev, now);
    var p := Clamped(LinearModel()(f, b));
    LinearShare(f, b);
    ProductBetween(p, chg);
    assert p * chg <= b by { assert p * (f + b - chg) >= 0.0; }
    assert (1.0 - p) * prev == f;
    assert f - (1.0 - p) * chg == (1.0 - p) * (now + q.cum);
    ProportionalFront(f, 1.0 - p, prev, now + q.cum);
    assert (1.0 - p) * (now + q.cum) >= 0.0;
  }

  lemma ProportionalFront(f: real, s: real, prev: real, left: real)
    requires prev > 0.0 && s * prev == f
    ensures f * left / prev == s * left
  {
    assert f * left == (s * left) * prev;
  }

  /** Exponent 2 does not: nine ahead, one behind, and the level emptied leave about -0.88. */
  lemma SquareGoesNegative()
    ensures -0.88 < DepthChanged(Queue(9.0, 0.0), 10.0, 0.0, SquareModel()).front < -0.87
  {
    var p := Clamped(SquareModel()(9.0, 1.0));
    assert Power2(0.0) == 0.0 && Power2(1.0) == 1.0 && Power2(9.0) == 81.0;
    SquareShare(p);
    assert Behind(Queue(9.0, 0.0), 10.0) == 1.0;
    assert DepthChanged(Queue(9.0, 0.0), 10.0, 0.0, SquareModel()).front == Split(9.0, 1.0, 10.0, p);
  }

  lemma SquareShare(p: real)
    requires p == Clamped(SquareModel()(9.0, 1.0))
    ensures p == 1.0 / 82.0
  {
    var f := Share(Power2, 9.0, 1.0);
    assert Power2(1.0) == 1.0 && Power2(9.0) == 81.0;
    assert f == Finite(1.0 / 82.0);
  }
}
