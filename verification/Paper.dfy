/** The paper trader: simulated orders filled by public trades, with balances, fills and
    order quantities that must agree. Order ids are inputs (random UUIDs in the source). */
module Paper {
  import opened Floats
  import opened Trading

  type OrderId = string

  datatype Order = Order(symbol: string, side: Side, price: real, qty: real, remaining: real)

  datatype Fill = Fill(tradeId: nat, orderId: OrderId, symbol: string, side: Side, price: real, qty: real)

  type Balances = map<string, real>

  datatype Ledger = Ledger(orders: map<OrderId, Order>, balances: Balances, fills: seq<Fill>, nextTradeId: nat)

  function Balance(b: Balances, asset: string): real { if asset in b then b[asset] else 0.0 }

  function Notional(price: real, qty: real): real { price * qty }

  /** A buy moves quantity into the base asset and its cost out of the quote asset. */
  function Settled(b: Balances, side: Side, price: real, qty: real): Balances {
    var signed := if side.Buy? then qty else -qty;
    var cost := if side.Buy? then Notional(price, qty) else -Notional(price, qty);
    b["BASE" := Balance(b, "BASE") + signed]["QUOTE" := Balance(b, "QUOTE") - cost]
  }

  function SettledAll(b: Balances, fills: seq<Fill>, n: nat): Balances
    requires n <= |fills|
  {
    if n == 0 then b
    else Settled(SettledAll(b, fills, n - 1), fills[n - 1].side, fills[n - 1].price, fills[n - 1].qty)
  }

  /** A trade crosses resting orders of the opposite side at or through their price. */
  predicate WouldFill(o: Order, price: real, taker: Side) {
    (o.side.Sell? && taker.Buy? && price >= o.price) || (o.side.Buy? && taker.Sell? && price <= o.price)
  }

  function FillQty(o: Order, qty: real): real { Min(o.remaining, qty) }

  function Reduced(o: Order, qty: real): Order { o.(remaining := o.remaining - FillQty(o, qty)) }

  function FillOf(o: Order, id: OrderId, qty: real, tradeId: nat): Fill {
    Fill(tradeId, id, o.symbol, o.side, o.price, FillQty(o, qty))
  }

  predicate Listed(fills: seq<Fill>, id: OrderId) {
    exists k :: 0 <= k < |fills| && fills[k].orderId == id
  }

  /** One fill for every crossed order and no other, in some order, numbered onwards. */
  ghost predicate FillsEachOnce(
      orders: map<OrderId, Order>, price: real, qty: real, taker: Side, nextTradeId: nat, fills: seq<Fill>)
  {
    && (forall k :: 0 <= k < |fills| ==>
          && fills[k].orderId in orders && WouldFill(orders[fills[k].orderId], price, taker)
          && fills[k] == FillOf(orders[fills[k].orderId], fills[k].orderId, qty, nextTradeId + k))
    && (forall i, j :: 0 <= i < j < |fills| ==> fills[i].orderId != fills[j].orderId)
    && (forall id :: id in orders && WouldFill(orders[id], price, taker) ==> Listed(fills, id))
  }

  /** An order after a trade: crossed ones shrink. */
  function Touched(o: Order, price: real, qty: real, taker: Side): Order {
    if WouldFill(o, price, taker) then Reduced(o, qty) else o
  }

  predicate Exhausted(o: Order, price: real, qty: real, taker: Side) {
    WouldFill(o, price, taker) && Reduced(o, qty).remaining == 0.0
  }

  function OrdersAfter(orders: map<OrderId, Order>, price: real, qty: real, taker: Side): map<OrderId, Order> {
    map id | id in orders && !Exhausted(orders[id], price, qty, taker) :: Touched(orders[id], price, qty, taker)
  }

  ghost predicate Traded(a: Ledger, price: real, qty: real, taker: Side, b: Ledger, fills: seq<Fill>) {
    && FillsEachOnce(a.orders, price, qty, taker, a.nextTradeId, fills)
    && b == Ledger(OrdersAfter(a.orders, price, qty, taker), SettledAll(a.balances, fills, |fills|),
                   a.fills + fills, a.nextTradeId + |fills|)
  }

  function Pnl(b: Balances, price: real): real {
    Balance(b, "QUOTE") + Notional(Balance(b, "BASE"), price)
  }

  class PaperTrader {
    var orders: map<OrderId, Order>
    var balances: Balances
    var fills: seq<Fill>
    var nextTradeId: nat

    function State(): Ledger
      reads this
    {
      Ledger(orders, balances, fills, nextTradeId)
    }

    constructor (initial: Balances)
      ensures State() == Ledger(map[], initial, [], 1)
    {
      orders, balances, fills, nextTradeId := map[], initial, [], 1;
    }

    method PlaceOrder(id: OrderId, symbol: string, side: Side, price: real, qty: real)
      modifies this
      ensures State() == old(State()).(orders := old(orders)[id := Order(symbol, side, price, qty, qty)])
    {
      orders := orders[id := Order(symbol, side, price, qty, qty)];
    }

    method CancelOrder(id: OrderId) returns (found: bool)
      modifies this
      ensures State() == old(State()).(orders := old(orders) - {id}) && found == (id in old(orders))
    {
      found := id in orders;
      orders := orders - {id};
    }

    method CancelAll()
      modifies this
      ensures State() == old(State()).(orders := map[])
    {
      orders := map[];
    }

    method ApplyFill(side: Side, price: real, qty: real)
      modifies this`balances
      ensures balances == Settled(old(balances), side, price, qty)
    {
      var quote := Notional(price, qty);
      match side {
        case Buy =>
          balances := balances["BASE" := Balance(balances, "BASE") + qty];
          balances := balances["QUOTE" := Balance(balances, "QUOTE") - quote];
        case Sell =>
          balances := balances["BASE" := Balance(balances, "BASE") - qty];
          balances := balances["QUOTE" := Balance(balances, "QUOTE") + quote];
      }
    }

    /** First pass: shrink every crossed order and remember its fill. */
    method Match(price: real, qty: real, taker: Side) returns (pending: seq<Fill>)
      modifies this`orders
      ensures Matched(old(orders), price, qty, taker, nextTradeId, {}, orders, pending)
    {
      ghost var before, now := orders, orders;
      var left := orders.Keys;
      pending := [];
      while left != {}
        invariant orders == now && left <= now.Keys
        invariant Matched(before, price, qty, taker, nextTradeId, left, now, pending)
        decreases |left|
      {
        var id :| id in left;
        MatchOneMore(before, price, qty, taker, nextTradeId, left, now, pending, id);
        left := left - {id};
        now := OrdersStep(now, id, price, qty, taker);
        pending := MatchOne(id, price, qty, taker, pending);
      }
    }

    method MatchOne(id: OrderId, price: real, qty: real, taker: Side, pending: seq<Fill>)
      returns (more: seq<Fill>)
      requires id in orders
      modifies this`orders
      ensures orders == OrdersStep(old(orders), id, price, qty, taker)
      ensures more == PendingStep(old(orders), id, price, qty, taker, nextTradeId, pending)
    {
      var order := orders[id];
      more := pending;
      if WouldFill(order, price, taker) {
        more := pending + [FillOf(order, id, qty, nextTradeId + |pending|)];
        orders := orders[id := Reduced(order, qty)];
      }
    }

    /** Second pass, one fill: number it, log it, settle it. */
    method Book(f: Fill)
      modifies this
      ensures State() == Booked(old(State()), f)
    {
      nextTradeId := nextTradeId + 1;
      fills := fills + [f];
      ApplyFill(f.side, f.price, f.qty);
    }

    method OnTrade(price: real, qty: real, taker: Side) returns (newFills: seq<Fill>)
      modifies this
      ensures Traded(old(State()), price, qty, taker, State(), newFills)
    {
      ghost var a := State();
      newFills := Match(price, qty, taker);
      ghost var start := State();
      var filled := BookEach(newFills);
      BookedTogether(start, newFills, |newFills|);
      assert newFills[..|newFills|] == newFills;
      EmptiedAreExhausted(a.orders, price, qty, taker, a.nextTradeId, start.orders, newFills);
      orders := orders - filled;
    }

    method BookEach(pending: seq<Fill>) returns (filled: set<OrderId>)
      modifies this
      ensures State() == BookedAll(old(State()), pending, |pending|)
      ensures orders == old(orders) && filled == Emptied(orders, pending, |pending|)
    {
      ghost var start, now := State(), State();
      filled := {};
      for i := 0 to |pending|
        invariant filled == Emptied(start.orders, pending, i) && orders == start.orders
        invariant State() == now && now == BookedAll(start, pending, i)
      {
        var f := pending[i];
        Book(f);
        now := Booked(now, f);
        if f.orderId in orders && orders[f.orderId].remaining == 0.0 { filled := filled + {f.orderId}; }
      }
    }
  }

  function Booked(a: Ledger, f: Fill): Ledger {
    a.(balances := Settled(a.balances, f.side, f.price, f.qty), fills := a.fills + [f],
       nextTradeId := a.nextTradeId + 1)
  }

  function BookedAll(a: Ledger, fills: seq<Fill>, n: nat): Ledger
    requires n <= |fills|
  {
    if n == 0 then a else Booked(BookedAll(a, fills, n - 1), fills[n - 1])
  }

  lemma {:induction false} BookedTogether(a: Ledger, fills: seq<Fill>, n: nat)
    requires n <= |fills|
    ensures BookedAll(a, fills, n) ==
      Ledger(a.orders, SettledAll(a.balances, fills, n), a.fills + fills[..n], a.nextTradeId + n)
  {
    if n > 0 {
      BookedTogether(a, fills, n - 1);
      assert fills[..n] == fills[..n - 1] + [fills[n - 1]];
    }
  }

  /** The orders among the first n fills that have nothing left. */
  function Emptied(orders: map<OrderId, Order>, fills: seq<Fill>, n: nat): set<OrderId>
    requires n <= |fills|
  {
    if n == 0 then {}
    else
      var id := fills[n - 1].orderId;
      Emptied(orders, fills, n - 1) + if id in orders && orders[id].remaining == 0.0 then {id} else {}
  }

  lemma {:induction false} EmptiedMeaning(orders: map<OrderId, Order>, fills: seq<Fill>, n: nat, id: OrderId)
    requires n <= |fills|
    ensures id in Emptied(orders, fills, n) <==>
      id in orders && orders[id].remaining == 0.0 && exists k :: 0 <= k < n && fills[k].orderId == id
  {
    if n > 0 { EmptiedMeaning(orders, fills, n - 1, id); }
  }

  lemma EmptiedAreExhausted(
      before: map<OrderId, Order>, price: real, qty: real, taker: Side, nextTradeId: nat,
      shrunk: map<OrderId, Order>, pending: seq<Fill>)
    requires Matched(before, price, qty, taker, nextTradeId, {}, shrunk, pending)
    ensures FillsEachOnce(before, price, qty, taker, nextTradeId, pending)
    ensures shrunk - Emptied(shrunk, pending, |pending|) == OrdersAfter(before, price, qty, taker)
  {
    var gone := Emptied(shrunk, pending, |pending|);
    forall id | id in before ensures id in gone <==> Exhausted(before[id], price, qty, taker) {
      EmptiedMeaning(shrunk, pending, |pending|, id);
      assert shrunk[id] == Touched(before[id], price, qty, taker);
    }
    var rest, after := shrunk - gone, OrdersAfter(before, price, qty, taker);
    assert rest.Keys == after.Keys;
    assert forall id :: id in rest ==> rest[id] == after[id];
  }

  /** The first pass with only the orders in `left` still to visit. */
  ghost predicate Matched(
      before: map<OrderId, Order>, price: real, qty: real, taker: Side, nextTradeId: nat, left: set<OrderId>,
      orders: map<OrderId, Order>, pending: seq<Fill>)
  {
    && left <= before.Keys == orders.Keys
    && (forall id :: id in orders ==>
          orders[id] == if id in left then before[id] else Touched(before[id], price, qty, taker))
    && (forall k :: 0 <= k < |pending| ==>
          && pending[k].orderId in before && pending[k].orderId !in left
          && WouldFill(before[pending[k].orderId], price, taker)
          && pending[k] == FillOf(before[pending[k].orderId], pending[k].orderId, qty, nextTradeId + k))
    && (forall i, j :: 0 <= i < j < |pending| ==> pending[i].orderId != pending[j].orderId)
    && (forall id :: id in before && id !in left && WouldFill(before[id], price, taker) ==> Listed(pending, id))
  }

  function OrdersStep(
      orders: map<OrderId, Order>, id: OrderId, price: real, qty: real, taker: Side): map<OrderId, Order>
    requires id in orders
  {
    if WouldFill(orders[id], price, taker) then orders[id := Reduced(orders[id], qty)] else orders
  }

  function PendingStep(
      orders: map<OrderId, Order>, id: OrderId, price: real, qty: real, taker: Side, nextTradeId: nat,
      pending: seq<Fill>): seq<Fill>
    requires id in orders
  {
    if WouldFill(orders[id], price, taker) then pending + [FillOf(orders[id], id, qty, nextTradeId + |pending|)]
    else pending
  }

  lemma ListedGrows(fills: seq<Fill>, f: Fill, id: OrderId)
    ensures Listed(fills + [f], id) <==> Listed(fills, id) || id == f.orderId
  {
    var more := fills + [f];
    if Listed(fills, id) {
      var k :| 0 <= k < |fills| && fills[k].orderId == id;
      assert more[k].orderId == id;
    }
    if id == f.orderId { assert more[|fills|].orderId == id; }
  }

  lemma MatchOneMore(
      before: map<OrderId, Order>, price: real, qty: real, taker: Side, nextTradeId: nat, left: set<OrderId>,
      orders: map<OrderId, Order>, pending: seq<Fill>, id: OrderId)
    requires Matched(before, price, qty, taker, nextTradeId, left, orders, pending) && id in left
    ensures Matched(before, price, qty, taker, nextTradeId, left - {id},
      OrdersStep(orders, id, price, qty, taker), PendingStep(orders, id, price, qty, taker, nextTradeId, pending))
  {
    if WouldFill(orders[id], price, taker) {
      var f := FillOf(orders[id], id, qty, nextTradeId + |pending|);
      forall i ensures Listed(pending + [f], i) <==> Listed(pending, i) || i == id {
        ListedGrows(pending, f, i);
      }
    }
  }
}
