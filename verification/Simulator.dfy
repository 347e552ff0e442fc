/** The queue-aware path of the backtest simulator: per-quote queue trackers, the merge of
    new desired quotes, the dispatch of one trade, and the event loop. The strategy is an
    arbitrary producer of quotes, carried by each snapshot event. */
module Simulator {
  import opened Floats
  import opened OrderBook
  import opened Trading
  import opened Wrappers
  import opened QueueModel

  datatype Quote = Quote(price: real, qty: real)

  datatype QuotePair = QuotePair(bid: Option<Quote>, ask: Option<Quote>)

  datatype Tracked = Tracked(quote: Quote, queue: Queue, lastBookQty: real)

  datatype Fill = Fill(tradeId: nat, side: Side, price: real, qty: real)

  datatype Event =
    | BookSnapshot(bids: seq<Level>, asks: seq<Level>, sequence: nat, quotes: seq<QuotePair>)
    | Trade(price: real, qty: real, taker: Side)

  function GetOr(o: Option<real>, d: real): real { if o.Some? then o.value else d }

  // ---- snapshots ----

  /** Quantity of the first level at a price, zero when there is none. */
  function FirstQty(ls: seq<Level>, price: real): real {
    if ls == [] then 0.0 else if ls[0].price == price then ls[0].qty else FirstQty(ls[1..], price)
  }

  function Refreshed(t: Tracked, ls: seq<Level>, m: Model): Tracked {
    var now := FirstQty(ls, t.quote.price);
    Tracked(t.quote, DepthChanged(t.queue, t.lastBookQty, now, m), now)
  }

  function RefreshedAll(ts: seq<Tracked>, ls: seq<Level>, m: Model): (r: seq<Tracked>)
    ensures |r| == |ts|
    ensures forall i :: 0 <= i < |ts| ==> r[i] == Refreshed(ts[i], ls, m)
  {
    seq(|ts|, i requires 0 <= i < |ts| => Refreshed(ts[i], ls, m))
  }

  /** The first tracker at a price. */
  function Find(ts: seq<Tracked>, price: real): (r: Option<Tracked>)
    ensures r.Some? ==> r.value in ts && r.value.quote.price == price
    ensures r.None? ==> forall t :: t in ts ==> t.quote.price != price
  {
    if ts == [] then None else if ts[0].quote.price == price then Some(ts[0]) else Find(ts[1..], price)
  }

  function Merged(existing: seq<Tracked>, q: Quote, levels: seq<Level>): Tracked {
    var bookQty := GetOr(Get(levels, q.price), 0.0);
    match Find(existing, q.price)
    case Some(prev) => Tracked(q, prev.queue, bookQty)
    case None => Tracked(q, Joined(bookQty), bookQty)
  }

  function MergedAll(existing: seq<Tracked>, desired: seq<Quote>, levels: seq<Level>): (r: seq<Tracked>)
    ensures |r| == |desired|
    ensures forall i :: 0 <= i < |r| ==> r[i] == Merged(existing, desired[i], levels)
  {
    seq(|desired|, i requires 0 <= i < |desired| => Merged(existing, desired[i], levels))
  }

  function SideQuotes(qs: seq<QuotePair>, side: Side): seq<Quote> {
    if qs == [] then []
    else
      var o := if side.Buy? then qs[0].bid else qs[0].ask;
      (if o.Some? then [o.value] else []) + SideQuotes(qs[1..], side)
  }

  // ---- trades ----

  predicate Touched(q: Quote, price: real, taker: Side) {
    if taker.Buy? then q.price <= price else q.price >= price
  }

  /** How much of the remaining trade a quote's level can absorb. */
  function Absorbed(t: Tracked, remaining: real): real {
    Min(remaining, Max(t.queue.front, 0.0) + t.quote.qty)
  }

  /** The quantity a touched quote fills. */
  function FillQty(t: Tracked, remaining: real): real {
    Min(Overshoot(Traded(t.queue, Absorbed(t, remaining))), t.quote.qty)
  }

  predicate Fills(t: Tracked, remaining: real) {
    Overshoot(Traded(t.queue, Absorbed(t, remaining))) > 0.0
  }

  function Hit(t: Tracked, remaining: real): Tracked {
    var q := Consumed(Traded(t.queue, Absorbed(t, remaining)));
    if Fills(t, remaining) then
      Tracked(t.quote.(qty := Max(t.quote.qty - FillQty(t, remaining), 0.0)), q, t.lastBookQty)
    else t.(queue := q)
  }

  function NewFill(t: Tracked, left: real, taker: Side, id: nat): seq<Fill> {
    if Fills(t, left) then [Fill(id, Maker(taker), t.quote.price, FillQty(t, left))] else []
  }

  /** A trade part-way through the quotes: their state, what is left of it, and its fills. */
  datatype Dispatch = Dispatch(tracked: seq<Tracked>, left: real, fills: seq<Fill>)

  /** Offer what is left to quote `i`. */
  function Offered(d: Dispatch, i: nat, price: real, taker: Side, id: nat): (r: Dispatch)
    requires i < |d.tracked|
    ensures |r.tracked| == |d.tracked|
  {
    var t := d.tracked[i];
    if d.left <= 0.0 || !Touched(t.quote, price, taker) then d
    else Dispatch(d.tracked[i := Hit(t, d.left)], d.left - Absorbed(t, d.left),
                  d.fills + NewFill(t, d.left, taker, id + |d.fills|))
  }

  /** A trade offered to the first `n` quotes in order. */
  function Dispatched(ts: seq<Tracked>, n: nat, price: real, qty: real, taker: Side, id: nat): (d: Dispatch)
    requires n <= |ts|
    ensures |d.tracked| == |ts|
  {
    if n == 0 then Dispatch(ts, qty, [])
    else Offered(Dispatched(ts, n - 1, price, qty, taker, id), n - 1, price, taker, id)
  }

  lemma {:induction false} DispatchExhausted(ts: seq<Tracked>, i: nat, n: nat, price: real, qty: real,
                                             taker: Side, id: nat)
    requires i <= n <= |ts| && Dispatched(ts, i, price, qty, taker, id).left <= 0.0
    ensures Dispatched(ts, n, price, qty, taker, id) == Dispatched(ts, i, price, qty, taker, id)
  {
    if i < n { DispatchExhausted(ts, i, n - 1, price, qty, taker, id); }
  }

  function Maker(taker: Side): Side { if taker.Buy? then Sell else Buy }

  function Alive(ts: seq<Tracked>): seq<Tracked> {
    if ts == [] then []
    else (if ts[0].quote.qty > 0.0 then [ts[0]] else []) + Alive(ts[1..])
  }

  // ---- the run ----

  datatype Sim = Sim(book: Book, bids: seq<Tracked>, asks: seq<Tracked>, fills: seq<Fill>)

  const START := Sim(Book([], [], 0), [], [], [])

  function OnSnapshot(s: Sim, e: Event, m: Model): Sim
    requires e.BookSnapshot?
  {
    var b := RefreshedAll(s.bids, e.bids, m);
    var a := RefreshedAll(s.asks, e.asks, m);
    var book := Updated(s.book, Snapshot(e.bids, e.asks, e.sequence));
    if book.Mid().None? then Sim(book, b, a, s.fills)
    else Sim(book, MergedAll(b, SideQuotes(e.quotes, Buy), book.bids),
             MergedAll(a, SideQuotes(e.quotes, Sell), book.asks), s.fills)
  }

  function OnTrade(s: Sim, e: Event): Sim
    requires e.Trade?
  {
    if e.taker.Buy? then
      var d := Dispatched(s.asks, |s.asks|, e.price, e.qty, Buy, |s.fills|);
      s.(asks := Alive(d.tracked), fills := s.fills + d.fills)
    else
      var d := Dispatched(s.bids, |s.bids|, e.price, e.qty, Sell, |s.fills|);
      s.(bids := Alive(d.tracked), fills := s.fills + d.fills)
  }

  function OnEvent(s: Sim, e: Event, m: Model): Sim {
    if e.BookSnapshot? then OnSnapshot(s, e, m) else OnTrade(s, e)
  }

  function After(es: seq<Event>, m: Model): Sim {
    if es == [] then START else OnEvent(After(es[..|es| - 1], m), es[|es| - 1], m)
  }

  class Backtest {
    const model: Model
    const book: LocalOrderBook
    var trackedBids: seq<Tracked>
    var trackedAsks: seq<Tracked>
    var fills: seq<Fill>

    function State(): Sim
      reads this, book
    {
      Sim(book.State(), trackedBids, trackedAsks, fills)
    }

    constructor (model: Model)
      ensures State() == START && this.model == model && fresh(book)
    {
      this.model := model;
      book := new LocalOrderBook();
      trackedBids, trackedAsks, fills := [], [], [];
    }

    method Run(events: seq<Event>)
      requires State() == START
      modifies this, book
      ensures State() == After(events, model)
    {
      for i := 0 to |events|
        invariant State() == After(events[..i], model)
      {
        match events[i] {
          case BookSnapshot(bids, asks, sequence, quotes) => Depth(bids, asks, sequence, quotes);
          case Trade(price, qty, taker) => Match(price, qty, taker);
        }
        assert events[..i + 1][..i] == events[..i];
      }
      assert events[..|events|] == events;
    }

    /** A book snapshot: advance every queue by the depth delta, replace the book, and merge
        the strategy's new quotes when there is a mid. */
    method Depth(bids: seq<Level>, asks: seq<Level>, sequence: nat, quotes: seq<QuotePair>)
      modifies this, book
      ensures State() == OnSnapshot(old(State()), BookSnapshot(bids, asks, sequence, quotes), model)
    {
      trackedBids := Advance(trackedBids, bids);
      trackedAsks := Advance(trackedAsks, asks);
      book.ApplySnapshot(bids, asks, sequence);
      if book.State().Mid().Some? {
        trackedBids := Merge(trackedBids, SideQuotes(quotes, Buy), book.bids);
        trackedAsks := Merge(trackedAsks, SideQuotes(quotes, Sell), book.asks);
      }
    }

    method Advance(ts: seq<Tracked>, ls: seq<Level>) returns (r: seq<Tracked>)
      ensures r == RefreshedAll(ts, ls, model)
    {
      r := ts;
      for i := 0 to |ts|
        invariant |r| == |ts|
        invariant forall j :: 0 <= j < |ts| ==> r[j] == if j < i then Refreshed(ts[j], ls, model) else ts[j]
      {
        var q := new QueuePos.From(r[i].queue);
        var newQty := FirstQty(ls, r[i].quote.price);
        q.OnDepthChange(r[i].lastBookQty, newQty, model);
        r := r[i := Tracked(r[i].quote, q.State(), newQty)];
      }
    }

    method Merge(existing: seq<Tracked>, desired: seq<Quote>, levels: seq<Level>)
      returns (out: seq<Tracked>)
      ensures out == MergedAll(existing, desired, levels)
    {
      out := [];
      for i := 0 to |desired|
        invariant |out| == i
        invariant forall j :: 0 <= j < i ==> out[j] == Merged(existing, desired[j], levels)
      {
        var quote := desired[i];
        var bookQty := GetOr(Get(levels, quote.price), 0.0);
        var prev := Find(existing, quote.price);
        if prev.Some? {
          out := out + [prev.value.(quote := quote, lastBookQty := bookQty)];
        } else {
          out := out + [Tracked(quote, Joined(bookQty), bookQty)];
        }
      }
    }

    /** A public trade goes to the side the taker hits. */
    method Match(price: real, qty: real, taker: Side)
      modifies this
      ensures State() == OnTrade(old(State()), Trade(price, qty, taker))
    {
      if taker.Buy? {
        trackedAsks := QueueAwareFill(trackedAsks, price, qty, Buy);
      } else {
        trackedBids := QueueAwareFill(trackedBids, price, qty, Sell);
      }
    }

    method QueueAwareFill(ts: seq<Tracked>, price: real, qty: real, taker: Side)
      returns (kept: seq<Tracked>)
      modifies this`fills
      ensures var d := Dispatched(ts, |ts|, price, qty, taker, |old(fills)|);
              kept == Alive(d.tracked) && fills == old(fills) + d.fills
    {
      var tracked, made := DispatchTrade(ts, price, qty, taker, |fills|);
      fills := fills + made;
      kept := Alive(tracked);
    }

    /** The loop over the tracked quotes. */
    static method DispatchTrade(ts: seq<Tracked>, price: real, qty: real, taker: Side, id: nat)
      returns (tracked: seq<Tracked>, made: seq<Fill>)
      ensures var d := Dispatched(ts, |ts|, price, qty, taker, id);
              tracked == d.tracked && made == d.fills
    {
      tracked, made := ts, [];
      var remaining, i := qty, 0;
      while i < |tracked| && remaining > 0.0
        invariant 0 <= i <= |tracked| == |ts|
        invariant Dispatch(tracked, remaining, made) == Dispatched(ts, i, price, qty, taker, id)
      {
        if Touched(tracked[i].quote, price, taker) {
          var hit, consume, more := HitQuote(tracked[i], remaining, taker, id + |made|);
          tracked, remaining, made := tracked[i := hit], remaining - consume, made + more;
        }
        i := i + 1;
      }
      if i < |ts| { DispatchExhausted(ts, i, |ts|, price, qty, taker, id); }
    }

    /** One touched quote: advance its queue, and make a fill of any overshoot. */
    static method HitQuote(t: Tracked, remaining: real, taker: Side, id: nat)
      returns (hit: Tracked, consume: real, made: seq<Fill>)
      ensures hit == Hit(t, remaining) && consume == Absorbed(t, remaining)
      ensures made == NewFill(t, remaining, taker, id)
    {
      consume := Min(remaining, Max(t.queue.front, 0.0) + t.quote.qty);
      var q := new QueuePos.From(t.queue);
      q.OnTrade(consume);
      var filledQty := q.ConsumeFill();
      hit, made := t.(queue := q.State()), [];
      if filledQty > 0.0 {
        var effQty := Min(filledQty, t.quote.qty);
        made := [Fill(id, Maker(taker), t.quote.price, effQty)];
        hit := hit.(quote := t.quote.(qty := Max(t.quote.qty - effQty, 0.0)));
      }
    }
  }
}
