/** What every run of the paper trader keeps: trade numbering, balances, order quantities
    and mark-to-market profit; and when one trade is handed out more than once. */
module PaperLaws {
  import opened Floats
  import opened Paper
  import opened Trading

  datatype Operation =
    | Place(id: OrderId, symbol: string, side: Side, price: real, qty: real)
    | Cancel(id: OrderId)
    | CancelAll
    | Trade(price: real, qty: real, taker: Side)

  ghost predicate Steps(a: Ledger, op: Operation, b: Ledger) {
    match op
    case Place(id, symbol, side, price, qty) =>
      b == a.(orders := a.orders[id := Order(symbol, side, price, qty, qty)])
    case Cancel(id) => b == a.(orders := a.orders - {id})
    case CancelAll => b == a.(orders := map[])
    case Trade(price, qty, taker) =>
      |a.fills| <= |b.fills| && Traded(a, price, qty, taker, b, b.fills[|a.fills|..])
  }

  ghost predicate StepAt(states: seq<Ledger>, ops: seq<Operation>, k: nat)
    requires |states| == |ops| + 1 && k < |ops|
  {
    Steps(states[k], ops[k], states[k + 1])
  }

  /** A run: the ledgers before and after each operation. */
  ghost predicate IsRun(initial: Balances, states: seq<Ledger>, ops: seq<Operation>) {
    && |states| == |ops| + 1 && states[0] == Ledger(map[], initial, [], 1)
    && (forall k :: 0 <= k < |ops| ==> StepAt(states, ops, k))
  }

  // ---- Trade numbers and balances ----

  lemma {:induction false} SettledPrefix(b: Balances, fills: seq<Fill>, longer: seq<Fill>, n: nat)
    requires n <= |fills| <= |longer| && fills == longer[..|fills|]
    ensures SettledAll(b, fills, n) == SettledAll(b, longer, n)
  {
    if n > 0 {
      SettledPrefix(b, fills, longer, n - 1);
      assert fills[n - 1] == longer[n - 1];
    }
  }

  lemma {:induction false} SettledConcat(b: Balances, first: seq<Fill>, second: seq<Fill>, n: nat)
    requires n <= |second|
    ensures SettledAll(b, first + second, |first| + n)
      == SettledAll(SettledAll(b, first, |first|), second, n)
  {
    if n == 0 {
      SettledPrefix(b, first, first + second, |first|);
    } else {
      SettledConcat(b, first, second, n - 1);
      assert (first + second)[|first| + n - 1] == second[n - 1];
    }
  }

  predicate NumberedFromOne(s: Ledger) {
    s.nextTradeId == |s.fills| + 1 && forall k :: 0 <= k < |s.fills| ==> s.fills[k].tradeId == k + 1
  }

  lemma {:induction false} BatchKeepsBooks(initial: Balances, a: Ledger, fills: seq<Fill>, b: Ledger)
    requires NumberedFromOne(a) && a.balances == SettledAll(initial, a.fills, |a.fills|)
    requires b.fills == a.fills + fills && b.nextTradeId == a.nextTradeId + |fills|
    requires b.balances == SettledAll(a.balances, fills, |fills|)
    requires forall k :: 0 <= k < |fills| ==> fills[k].tradeId == a.nextTradeId + k
    ensures NumberedFromOne(b) && b.balances == SettledAll(initial, b.fills, |b.fills|)
  {
    SettledConcat(initial, a.fills, fills, |fills|);
  }

  /** Over every run: trade ids count up from one without gaps, and the balances are the
      initial ones with every logged fill settled, in order, and nothing else. */
  lemma {:induction false} BooksBalance(initial: Balances, states: seq<Ledger>, ops: seq<Operation>, n: nat)
    requires IsRun(initial, states, ops) && n <= |ops|
    ensures NumberedFromOne(states[n])
    ensures states[n].balances == SettledAll(initial, states[n].fills, |states[n].fills|)
  {
    if n > 0 {
      BooksBalance(initial, states, ops, n - 1);
      assert StepAt(states, ops, n - 1);
      var a, b := states[n - 1], states[n];
      if ops[n - 1].Trade? { BatchKeepsBooks(initial, a, b.fills[|a.fills|..], b); }
    }
  }

  // ---- Profit ----

  /** What one fill earns when the base asset is marked at a price. */
  function Gain(f: Fill, mark: real): real {
    if f.side.Buy? then Notional(mark - f.price, f.qty) else Notional(f.price - mark, f.qty)
  }

  function Gains(fills: seq<Fill>, n: nat, mark: real): real
    requires n <= |fills|
  {
    if n == 0 then 0.0 else Gains(fills, n - 1, mark) + Gain(fills[n - 1], mark)
  }

  lemma MarkMoves(base: real, qty: real, price: real, mark: real)
    ensures Notional(base + qty, mark) - Notional(price, qty) == Notional(base, mark) + Notional(mark - price, qty)
    ensures Notional(base - qty, mark) + Notional(price, qty) == Notional(base, mark) + Notional(price - mark, qty)
  {
  }

  lemma SettledGain(b: Balances, f: Fill, mark: real)
    ensures Pnl(Settled(b, f.side, f.price, f.qty), mark) == Pnl(b, mark) + Gain(f, mark)
  {
    MarkMoves(Balance(b, "BASE"), f.qty, f.price, mark);
    assert "BASE" != "QUOTE" by { assert |"BASE"| != |"QUOTE"|; }
    var after := Settled(b, f.side, f.price, f.qty);
    if f.side.Buy? {
      assert Balance(after, "BASE") == Balance(b, "BASE") + f.qty;
    } else {
      assert Balance(after, "BASE") == Balance(b, "BASE") - f.qty;
    }
  }

  lemma {:induction false} SettledGains(b: Balances, fills: seq<Fill>, n: nat, mark: real)
    requires n <= |fills|
    ensures Pnl(SettledAll(b, fills, n), mark) == Pnl(b, mark) + Gains(fills, n, mark)
  {
    if n > 0 {
      SettledGains(b, fills, n - 1, mark);
      SettledGain(SettledAll(b, fills, n - 1), fills[n - 1], mark);
    }
  }

  /** Over every run and at every mark: profit is the starting value plus, for each fill, its
      signed quantity times the distance from its price. */
  lemma PnlIsGains(
      initial: Balances, states: seq<Ledger>, ops: seq<Operation>, n: nat, mark: real)
    requires IsRun(initial, states, ops) && n <= |ops|
    ensures Pnl(states[n].balances, mark)
      == Pnl(initial, mark) + Gains(states[n].fills, |states[n].fills|, mark)
  {
    BooksBalance(initial, states, ops, n);
    SettledGains(initial, states[n].fills, |states[n].fills|, mark);
  }

  /** Over every run, assets other than the two traded keep their balances, or their absence. */
  lemma OtherAssetsKept(
      initial: Balances, states: seq<Ledger>, ops: seq<Operation>, n: nat, asset: string)
    requires IsRun(initial, states, ops) && n <= |ops| && asset != "BASE" && asset != "QUOTE"
    ensures asset in states[n].balances <==> asset in initial
    ensures asset in initial ==> states[n].balances[asset] == initial[asset]
  {
    BooksBalance(initial, states, ops, n);
    SettledKeeps(initial, states[n].fills, |states[n].fills|, asset);
  }

  lemma {:induction false} SettledKeeps(b: Balances, fills: seq<Fill>, n: nat, asset: string)
    requires n <= |fills| && asset != "BASE" && asset != "QUOTE"
    ensures var after := SettledAll(b, fills, n);
      (asset in after <==> asset in b) && (asset in b ==> after[asset] == b[asset])
  {
    if n > 0 { SettledKeeps(b, fills, n - 1, asset); }
  }

  // ---- One trade, order by order ----

  /** A trade crosses a resting sale when a buyer pays at least its price, and a resting
      purchase when a seller takes at most its price. A crossed order gets one fill, at its own
      price, of what it still wants or the whole traded quantity, whichever is less, and leaves
      when it wants no more than that; any other order stays as it was, without a fill. */
  lemma OrderTraded(
      a: Ledger, price: real, qty: real, taker: Side, b: Ledger, fills: seq<Fill>, id: OrderId)
    requires Traded(a, price, qty, taker, b, fills) && id in a.orders
    ensures var o := a.orders[id];
      var crossed := if o.side.Sell? then taker.Buy? && price >= o.price else taker.Sell? && price <= o.price;
      var got := if o.remaining <= qty then o.remaining else qty;
      && (id in b.orders <==> !(crossed && o.remaining <= qty))
      && (id in b.orders ==> b.orders[id] == if crossed then o.(remaining := o.remaining - got) else o)
      && (crossed <==> exists k :: 0 <= k < |fills| && fills[k].orderId == id)
      && (forall k :: 0 <= k < |fills| && fills[k].orderId == id ==>
            fills[k] == Fill(a.nextTradeId + k, id, o.symbol, o.side, o.price, got))
  {
    if WouldFill(a.orders[id], price, taker) { assert Listed(fills, id); }
  }

  /** Nothing is filled or left resting that was not resting before, and no order twice. */
  lemma NothingElseTraded(
      a: Ledger, price: real, qty: real, taker: Side, b: Ledger, fills: seq<Fill>)
    requires Traded(a, price, qty, taker, b, fills)
    ensures forall id :: id in b.orders ==> id in a.orders
    ensures forall k :: 0 <= k < |fills| ==> fills[k].orderId in a.orders
    ensures forall i, j :: 0 <= i < j < |fills| ==> fills[i].orderId != fills[j].orderId
    ensures b.fills == a.fills + fills && b.nextTradeId == a.nextTradeId + |fills|
  {
  }

  // ---- Order quantities ----

  /** How much of one order the first n fills delivered. */
  function Filled(fills: seq<Fill>, n: nat, id: OrderId): real
    requires n <= |fills|
  {
    if n == 0 then 0.0
    else Filled(fills, n - 1, id) + if fills[n - 1].orderId == id then fills[n - 1].qty else 0.0
  }

  lemma {:induction false} FilledConcat(first: seq<Fill>, second: seq<Fill>, n: nat, id: OrderId)
    requires n <= |first| + |second|
    ensures Filled(first + second, n, id)
      == if n <= |first| then Filled(first, n, id) else Filled(first, |first|, id) + Filled(second, n - |first|, id)
  {
    if n > 0 { FilledConcat(first, second, n - 1, id); }
  }

  lemma {:induction false} FilledNever(fills: seq<Fill>, n: nat, id: OrderId)
    requires n <= |fills| && forall k :: 0 <= k < n ==> fills[k].orderId != id
    ensures Filled(fills, n, id) == 0.0
  {
    if n > 0 { FilledNever(fills, n - 1, id); }
  }

  lemma {:induction false} FilledOnce(fills: seq<Fill>, n: nat, k: nat)
    requires k < n <= |fills|
    requires forall i, j :: 0 <= i < j < |fills| ==> fills[i].orderId != fills[j].orderId
    ensures Filled(fills, n, fills[k].orderId) == fills[k].qty
  {
    if k == n - 1 { FilledNever(fills, n - 1, fills[k].orderId); } else { FilledOnce(fills, n - 1, k); }
  }

  /** What one trade delivers to one order. */
  lemma TradeFills(a: Ledger, price: real, qty: real, taker: Side, fills: seq<Fill>, id: OrderId)
    requires FillsEachOnce(a.orders, price, qty, taker, a.nextTradeId, fills)
    ensures Filled(fills, |fills|, id) ==
      if id in a.orders && WouldFill(a.orders[id], price, taker) then FillQty(a.orders[id], qty) else 0.0
  {
    if id in a.orders && WouldFill(a.orders[id], price, taker) {
      var k :| 0 <= k < |fills| && fills[k].orderId == id;
      FilledOnce(fills, |fills|, k);
    } else {
      FilledNever(fills, |fills|, id);
    }
  }

  /** Order ids are never reused, as random UUIDs are not. */
  predicate FreshIds(ops: seq<Operation>) {
    forall i, j :: 0 <= i < j < |ops| && ops[i].Place? && ops[j].Place? ==> ops[i].id != ops[j].id
  }

  predicate NonNegative(ops: seq<Operation>) {
    forall k :: 0 <= k < |ops| ==>
      (ops[k].Place? ==> ops[k].qty >= 0.0) && (ops[k].Trade? ==> ops[k].qty >= 0.0)
  }

  /** The state of the order placed by operation k. */
  predicate Accounted(s: Ledger, place: Operation)
    requires place.Place?
  {
    var filled := Filled(s.fills, |s.fills|, place.id);
    && 0.0 <= filled <= place.qty
    && (place.id in s.orders ==>
          var o := s.orders[place.id];
          && o.symbol == place.symbol && o.side == place.side && o.price == place.price && o.qty == place.qty
          && o.remaining >= 0.0 && o.qty == o.remaining + filled)
  }

  lemma StepAccounts(a: Ledger, op: Operation, b: Ledger, place: Operation)
    requires Steps(a, op, b) && place.Place? && Accounted(a, place)
    requires op.Place? ==> op.id != place.id
    requires op.Trade? ==> op.qty >= 0.0
    ensures Accounted(b, place)
  {
    if op.Trade? {
      var news := b.fills[|a.fills|..];
      assert b.fills == a.fills + news;
      FilledConcat(a.fills, news, |b.fills|, place.id);
      TradeFills(a, op.price, op.qty, op.taker, news, place.id);
      if place.id in b.orders {
        assert place.id in a.orders && b.orders[place.id] == Touched(a.orders[place.id], op.price, op.qty, op.taker);
      }
    }
  }

  /** Ids of fills were placed before. */
  predicate FillsKnown(s: Ledger, ops: seq<Operation>, n: nat)
    requires n <= |ops|
  {
    && (forall id :: id in s.orders ==> PlacedBy(ops, n, id))
    && (forall k :: 0 <= k < |s.fills| ==> PlacedBy(ops, n, s.fills[k].orderId))
  }

  predicate PlacedBy(ops: seq<Operation>, n: nat, id: OrderId)
    requires n <= |ops|
  {
    exists k :: 0 <= k < n && ops[k].Place? && ops[k].id == id
  }

  lemma PlacedLater(ops: seq<Operation>, n: nat, id: OrderId)
    requires n < |ops|
    ensures PlacedBy(ops, n, id) ==> PlacedBy(ops, n + 1, id)
    ensures ops[n].Place? ==> PlacedBy(ops, n + 1, ops[n].id)
  {
    if PlacedBy(ops, n, id) {
      var k :| 0 <= k < n && ops[k].Place? && ops[k].id == id;
    }
    if ops[n].Place? { assert ops[n].Place? && ops[n].id == ops[n].id; }
  }

  lemma {:induction false} KnownRun(initial: Balances, states: seq<Ledger>, ops: seq<Operation>, n: nat)
    requires IsRun(initial, states, ops) && n <= |ops|
    ensures FillsKnown(states[n], ops, n)
  {
    if n > 0 {
      KnownRun(initial, states, ops, n - 1);
      assert StepAt(states, ops, n - 1);
      var a, b := states[n - 1], states[n];
      forall id | id in b.orders ensures PlacedBy(ops, n, id) { PlacedLater(ops, n - 1, id); }
      forall k | 0 <= k < |b.fills| ensures PlacedBy(ops, n, b.fills[k].orderId) {
        PlacedLater(ops, n - 1, b.fills[k].orderId);
        if k >= |a.fills| {
          assert b.fills[k] == b.fills[|a.fills|..][k - |a.fills|];
        } else {
          assert ops[n - 1].Trade? ==> b.fills == a.fills + b.fills[|a.fills|..];
        }
      }
    }
  }

  lemma JustPlaced(initial: Balances, states: seq<Ledger>, ops: seq<Operation>, k: nat)
    requires IsRun(initial, states, ops) && k < |ops| && ops[k].Place?
    requires FreshIds(ops) && ops[k].qty >= 0.0
    ensures Accounted(states[k + 1], ops[k])
  {
    KnownRun(initial, states, ops, k);
    assert StepAt(states, ops, k);
    forall i | 0 <= i < |states[k].fills| ensures states[k].fills[i].orderId != ops[k].id {
      assert PlacedBy(ops, k, states[k].fills[i].orderId);
    }
    FilledNever(states[k].fills, |states[k].fills|, ops[k].id);
  }

  /** Over every run: whatever was placed, cancelled and traded since, an order's fills never
      exceed its size, and while it is open its size is what remains plus its fills. */
  lemma {:induction false} OrdersAccounted(
      initial: Balances, states: seq<Ledger>, ops: seq<Operation>, k: nat, n: nat)
    requires IsRun(initial, states, ops) && k < n <= |ops| && ops[k].Place?
    requires FreshIds(ops) && NonNegative(ops)
    ensures Accounted(states[n], ops[k])
    decreases n
  {
    if n == k + 1 {
      JustPlaced(initial, states, ops, k);
    } else {
      OrdersAccounted(initial, states, ops, k, n - 1);
      assert StepAt(states, ops, n - 1);
      StepAccounts(states[n - 1], ops[n - 1], states[n], ops[k]);
    }
  }

  // ---- One trade handed out more than once ----

  function TotalQty(fills: seq<Fill>): real {
    if fills == [] then 0.0 else fills[0].qty + TotalQty(fills[1..])
  }

  /** What the crossed orders still wanted, fill by fill. */
  function TotalWanted(orders: map<OrderId, Order>, fills: seq<Fill>): real
    requires forall k :: 0 <= k < |fills| ==> fills[k].orderId in orders
  {
    if fills == [] then 0.0 else orders[fills[0].orderId].remaining + TotalWanted(orders, fills[1..])
  }

  predicate Shares(orders: map<OrderId, Order>, qty: real, fills: seq<Fill>) {
    forall k :: 0 <= k < |fills| ==>
      && fills[k].orderId in orders && orders[fills[k].orderId].remaining >= 0.0
      && fills[k].qty == FillQty(orders[fills[k].orderId], qty)
  }

  /** How many of the crossed orders still wanted anything. */
  function Wanting(orders: map<OrderId, Order>, fills: seq<Fill>): nat
    requires forall k :: 0 <= k < |fills| ==> fills[k].orderId in orders
  {
    if fills == [] then 0
    else (if orders[fills[0].orderId].remaining > 0.0 then 1 else 0) + Wanting(orders, fills[1..])
  }

  lemma {:induction false} TotalsCompare(orders: map<OrderId, Order>, qty: real, fills: seq<Fill>)
    requires qty > 0.0 && Shares(orders, qty, fills)
    ensures 0.0 <= TotalQty(fills) <= TotalWanted(orders, fills)
    ensures Wanting(orders, fills) > 0 <==> TotalQty(fills) > 0.0
    ensures Wanting(orders, fills) <= 1 ==> TotalQty(fills) <= qty
    ensures TotalQty(fills) < TotalWanted(orders, fills) ==> TotalQty(fills) >= qty
    ensures TotalQty(fills) < TotalWanted(orders, fills) && Wanting(orders, fills) > 1 ==> TotalQty(fills) > qty
  {
    if fills != [] { TotalsCompare(orders, qty, fills[1..]); }
  }

  // ---- The same before the trade ----

  function Crossed(orders: map<OrderId, Order>, price: real, taker: Side): set<OrderId> {
    set id | id in orders && WouldFill(orders[id], price, taker)
  }

  function Hungry(orders: map<OrderId, Order>, ids: set<OrderId>): set<OrderId>
    requires ids <= orders.Keys
  {
    set id | id in ids && orders[id].remaining > 0.0
  }

  ghost function Remaining(orders: map<OrderId, Order>, ids: set<OrderId>): real
    requires ids <= orders.Keys
  {
    if ids == {} then 0.0
    else
      var id :| id in ids;
      orders[id].remaining + Remaining(orders, ids - {id})
  }

  lemma {:induction false} RemainingWithout(orders: map<OrderId, Order>, ids: set<OrderId>, id: OrderId)
    requires ids <= orders.Keys && id in ids
    ensures Remaining(orders, ids) == orders[id].remaining + Remaining(orders, ids - {id})
    decreases |ids|
  {
    var first :| first in ids && Remaining(orders, ids) == orders[first].remaining + Remaining(orders, ids - {first});
    if first != id {
      RemainingWithout(orders, ids - {first}, id);
      RemainingWithout(orders, ids - {id}, first);
      assert ids - {first} - {id} == ids - {id} - {first};
    }
  }

  function IdsOf(fills: seq<Fill>): set<OrderId> {
    if fills == [] then {} else {fills[0].orderId} + IdsOf(fills[1..])
  }

  lemma {:induction false} IdsMeaning(fills: seq<Fill>, id: OrderId)
    ensures id in IdsOf(fills) <==> Listed(fills, id)
  {
    if fills != [] {
      IdsMeaning(fills[1..], id);
      if Listed(fills[1..], id) {
        var k :| 0 <= k < |fills[1..]| && fills[1..][k].orderId == id;
        assert fills[k + 1].orderId == id;
      }
      if Listed(fills, id) && fills[0].orderId != id {
        var k :| 0 <= k < |fills| && fills[k].orderId == id;
        assert fills[1..][k - 1].orderId == id;
      }
    }
  }

  predicate DistinctIds(fills: seq<Fill>) {
    forall i, j :: 0 <= i < j < |fills| ==> fills[i].orderId != fills[j].orderId
  }

  lemma HungryGrows(orders: map<OrderId, Order>, ids: set<OrderId>, id: OrderId)
    requires ids <= orders.Keys && id in orders && id !in ids
    ensures |Hungry(orders, {id} + ids)| == |Hungry(orders, ids)| + if orders[id].remaining > 0.0 then 1 else 0
  {
    var before := Hungry(orders, ids);
    assert Hungry(orders, {id} + ids) == if orders[id].remaining > 0.0 then before + {id} else before;
  }

  lemma FirstIdIsNew(fills: seq<Fill>)
    requires fills != [] && DistinctIds(fills)
    ensures fills[0].orderId !in IdsOf(fills[1..]) && DistinctIds(fills[1..])
    ensures IdsOf(fills) - {fills[0].orderId} == IdsOf(fills[1..])
  {
    IdsMeaning(fills[1..], fills[0].orderId);
    assert forall k :: 0 <= k < |fills| - 1 ==> fills[1..][k] == fills[k + 1];
  }

  /** Counting fill by fill is counting order by order. */
  lemma {:induction false} TotalsOfIds(orders: map<OrderId, Order>, fills: seq<Fill>)
    requires DistinctIds(fills) && forall k :: 0 <= k < |fills| ==> fills[k].orderId in orders
    ensures IdsOf(fills) <= orders.Keys
    ensures TotalWanted(orders, fills) == Remaining(orders, IdsOf(fills))
    ensures Wanting(orders, fills) == |Hungry(orders, IdsOf(fills))|
  {
    if fills != [] {
      FirstIdIsNew(fills);
      TotalsOfIds(orders, fills[1..]);
      RemainingWithout(orders, IdsOf(fills), fills[0].orderId);
      HungryGrows(orders, IdsOf(fills[1..]), fills[0].orderId);
    }
  }

  lemma FillsAreCrossed(a: Ledger, price: real, qty: real, taker: Side, fills: seq<Fill>)
    requires FillsEachOnce(a.orders, price, qty, taker, a.nextTradeId, fills)
    ensures IdsOf(fills) == Crossed(a.orders, price, taker)
  {
    forall id ensures id in IdsOf(fills) <==> id in Crossed(a.orders, price, taker) { IdsMeaning(fills, id); }
  }

  /** Each crossed order is offered the whole trade. Its fills stay within the traded quantity
      exactly when, before the trade, at most one crossed order wants anything or all of them
      together want no more than is traded. */
  lemma TradeNotOverfilledIff(
      a: Ledger, price: real, qty: real, taker: Side, b: Ledger, fills: seq<Fill>)
    requires Traded(a, price, qty, taker, b, fills) && qty > 0.0
    requires forall id :: id in a.orders ==> a.orders[id].remaining >= 0.0
    ensures var crossed := Crossed(a.orders, price, taker);
      TotalQty(fills) <= qty <==> |Hungry(a.orders, crossed)| <= 1 || Remaining(a.orders, crossed) <= qty
  {
    TotalsCompare(a.orders, qty, fills);
    assert DistinctIds(fills);
    TotalsOfIds(a.orders, fills);
    FillsAreCrossed(a, price, qty, taker, fills);
  }

  const UNIT_BUY := Order("X", Buy, 100.0, 1.0, 1.0)

  const TWO_FILLS := [FillOf(UNIT_BUY, "a", 1.0, 1), FillOf(UNIT_BUY, "b", 1.0, 2)]

  const TWO_BUYS_ONE_SALE := [
    Place("a", "X", Buy, 100.0, 1.0), Place("b", "X", Buy, 100.0, 1.0), Trade(100.0, 1.0, Sell)]

  function AfterPlacing(initial: Balances, n: nat): Ledger {
    Ledger(if n == 0 then map[] else if n == 1 then map["a" := UNIT_BUY] else map["a" := UNIT_BUY]["b" := UNIT_BUY],
           initial, [], 1)
  }

  function AfterSale(initial: Balances): Ledger {
    Ledger(OrdersAfter(AfterPlacing(initial, 2).orders, 100.0, 1.0, Sell), SettledAll(initial, TWO_FILLS, 2),
           TWO_FILLS, 3)
  }

  lemma TotalOfTwo(fills: seq<Fill>)
    requires |fills| == 2
    ensures TotalQty(fills) == fills[0].qty + fills[1].qty
  {
    assert fills[1..][1..] == [];
    assert TotalQty(fills[1..]) == fills[1].qty;
  }

  lemma SaleCrossesBoth(initial: Balances)
    ensures FillsEachOnce(AfterPlacing(initial, 2).orders, 100.0, 1.0, Sell, 1, TWO_FILLS)
  {
    assert "a"[0] != "b"[0];
    assert TWO_FILLS[0].orderId == "a" && TWO_FILLS[1].orderId == "b";
    assert Listed(TWO_FILLS, "a") && Listed(TWO_FILLS, "b");
  }

  lemma SaleFillsBoth(initial: Balances)
    ensures Traded(AfterPlacing(initial, 2), 100.0, 1.0, Sell, AfterSale(initial), TWO_FILLS)
  {
    SaleCrossesBoth(initial);
    assert AfterPlacing(initial, 2).fills + TWO_FILLS == TWO_FILLS;
  }

  /** Two buys of one unit each, then a sale of one: both are filled. */
  lemma OneTradeFillsTwo(initial: Balances) returns (states: seq<Ledger>)
    ensures IsRun(initial, states, TWO_BUYS_ONE_SALE)
    ensures TWO_BUYS_ONE_SALE[2] == Trade(100.0, 1.0, Sell) && TotalQty(states[3].fills) == 2.0
  {
    states := [AfterPlacing(initial, 0), AfterPlacing(initial, 1), AfterPlacing(initial, 2), AfterSale(initial)];
    SaleFillsBoth(initial);
    TotalOfTwo(TWO_FILLS);
    assert AfterSale(initial).fills[0..] == TWO_FILLS;
    assert StepAt(states, TWO_BUYS_ONE_SALE, 0);
    assert StepAt(states, TWO_BUYS_ONE_SALE, 1);
    assert StepAt(states, TWO_BUYS_ONE_SALE, 2);
  }
}
