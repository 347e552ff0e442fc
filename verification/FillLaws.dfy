/** Fills and quotes over whole backtests: on which side fills are booked, what they add up
    to, and which quotes a snapshot leaves resting. */
module FillLaws {
  import opened Floats
  import opened OrderBook
  import opened Trading
  import opened Wrappers
  import opened QueueModel
  import opened Simulator
  import opened SimulatorLaws
  import opened AnchorLaws
  import B = BookLaws

  // ---- what survives a trade ----

  function Kept(t: Tracked): seq<Tracked> { if t.quote.qty > 0.0 then [t] else [] }

  lemma AliveCons(t: Tracked, ts: seq<Tracked>)
    ensures Alive([t] + ts) == Kept(t) + Alive(ts)
  {
    assert ([t] + ts)[1..] == ts;
  }

  /** Exactly the quotes with size left keep resting, in order. */
  lemma {:induction false} AliveSnoc(ts: seq<Tracked>, t: Tracked)
    ensures Alive([]) == []
    ensures Alive(ts + [t]) == Alive(ts) + if t.quote.qty > 0.0 then [t] else []
  {
    if ts == [] {
      AliveCons(t, []);
      assert ts + [t] == [t] + [];
    } else {
      var head, rest := ts[0], ts[1..];
      AliveSnoc(rest, t);
      AliveCons(head, rest);
      AliveCons(head, rest + [t]);
      assert ts == [head] + rest && ts + [t] == [head] + (rest + [t]);
    }
  }

  ghost predicate Sized(ts: seq<Tracked>) { forall i :: 0 <= i < |ts| ==> ts[i].quote.qty >= 0.0 }

  lemma {:induction false} SizesAdd(a: seq<Tracked>, b: seq<Tracked>)
    ensures Sizes(a + b) == Sizes(a) + Sizes(b)
  {
    if b == [] {
      assert a + b == a;
    } else {
      assert (a + b)[..|a + b| - 1] == a + b[..|b| - 1];
      SizesAdd(a, b[..|b| - 1]);
    }
  }

  lemma SizeOfOne(t: Tracked)
    ensures Sizes([t]) == t.quote.qty
    ensures t.quote.qty >= 0.0 ==> Sizes(Kept(t)) == t.quote.qty
  {
    assert [t][..0] == [];
  }

  lemma {:induction false} AliveSizes(ts: seq<Tracked>)
    requires Sized(ts)
    ensures Sizes(Alive(ts)) == Sizes(ts)
  {
    if ts != [] {
      var head, rest := ts[0], ts[1..];
      assert head.quote.qty >= 0.0;
      AliveSizes(rest);
      AliveCons(head, rest);
      SizeOfOne(head);
      SizesAdd([head], rest);
      SizesAdd(Kept(head), Alive(rest));
      assert ts == [head] + rest;
    }
  }

  lemma AliveSized(ts: seq<Tracked>)
    ensures Sized(Alive(ts))
  {
    forall i | 0 <= i < |Alive(ts)| ensures Alive(ts)[i].quote.qty >= 0.0 {
      AliveMembers(ts, Alive(ts)[i]);
    }
  }

  // ---- one trade, by side ----

  /** Quantity of the fills booked on one side. */
  function SideTotal(fs: seq<Fill>, side: Side): real {
    if fs == [] then 0.0
    else SideTotal(fs[..|fs| - 1], side) + if fs[|fs| - 1].side == side then fs[|fs| - 1].qty else 0.0
  }

  lemma {:induction false} SideTotalAdds(a: seq<Fill>, b: seq<Fill>, side: Side)
    ensures SideTotal(a + b, side) == SideTotal(a, side) + SideTotal(b, side)
  {
    if b == [] {
      assert a + b == a;
    } else {
      assert (a + b)[..|a + b| - 1] == a + b[..|b| - 1];
      SideTotalAdds(a, b[..|b| - 1], side);
    }
  }

  lemma OneFill(f: Fill, side: Side)
    ensures SideTotal([f], side) == if f.side == side then f.qty else 0.0
  {
    assert [f][..0] == [];
  }

  lemma HitTotals(t: Tracked, left: real, price: real, taker: Side, id: nat)
    requires t.quote.qty >= 0.0 && left > 0.0 && Touched(t.quote, price, taker)
    ensures var fs, lost := NewFill(t, left, taker, id), t.quote.qty - Hit(t, left).quote.qty;
      && SideTotal(fs, if taker.Buy? then Sell else Buy) == lost
      && SideTotal(fs, taker) == 0.0 && Hit(t, left).quote.qty >= 0.0
  {
    HitLabels(t, left, price, taker, id);
    var fs := NewFill(t, left, taker, id);
    if fs != [] {
      OneFill(fs[0], taker);
      OneFill(fs[0], if taker.Buy? then Sell else Buy);
      assert fs == [fs[0]];
    }
  }

  /** All fills are on the side opposite to the taker, and total the size the quotes lost. */
  ghost predicate Totals(ts: seq<Tracked>, taker: Side, d: Dispatch) {
    && Sized(d.tracked) && SideTotal(d.fills, taker) == 0.0
    && SideTotal(d.fills, if taker.Buy? then Sell else Buy) == Sizes(ts) - Sizes(d.tracked)
  }

  lemma SizedUpdate(ts: seq<Tracked>, i: nat, t: Tracked)
    requires i < |ts| && Sized(ts) && t.quote.qty >= 0.0
    ensures Sized(ts[i := t])
  {
  }

  lemma AddedTotals(fs: seq<Fill>, more: seq<Fill>, ts: seq<Tracked>, i: nat, t: Tracked, maker: Side)
    requires i < |ts| && SideTotal(more, maker) == ts[i].quote.qty - t.quote.qty
    ensures SideTotal(fs + more, maker) == SideTotal(fs, maker) + Sizes(ts) - Sizes(ts[i := t])
  {
    SideTotalAdds(fs, more, maker);
    ReplaceSums(ts, i, t);
  }

  lemma OfferTotals(ts: seq<Tracked>, d: Dispatch, i: nat, price: real, taker: Side, id: nat)
    requires i < |d.tracked| && Totals(ts, taker, d)
    ensures Totals(ts, taker, Offered(d, i, price, taker, id))
  {
    var t := d.tracked[i];
    if d.left > 0.0 && Touched(t.quote, price, taker) {
      HitTotals(t, d.left, price, taker, id + |d.fills|);
      var more := NewFill(t, d.left, taker, id + |d.fills|);
      SideTotalAdds(d.fills, more, taker);
      AddedTotals(d.fills, more, d.tracked, i, Hit(t, d.left), if taker.Buy? then Sell else Buy);
      SizedUpdate(d.tracked, i, Hit(t, d.left));
    }
  }

  lemma {:induction false} DispatchTotals(ts: seq<Tracked>, n: nat, price: real, qty: real, taker: Side, id: nat)
    requires n <= |ts| && Sized(ts)
    ensures Totals(ts, taker, Dispatched(ts, n, price, qty, taker, id))
  {
    if n > 0 {
      DispatchTotals(ts, n - 1, price, qty, taker, id);
      OfferTotals(ts, Dispatched(ts, n - 1, price, qty, taker, id), n - 1, price, taker, id);
    }
  }

  // ---- whole runs ----

  /** The size the resting quotes of one side lose to trades over a run. */
  function LostToTrades(es: seq<Event>, m: Model, side: Side): real {
    if es == [] then 0.0
    else
      var front, e := es[..|es| - 1], es[|es| - 1];
      LostToTrades(front, m, side)
        + if e.Trade? then Sizes(TrackedOn(After(front, m), side)) - Sizes(TrackedOn(After(es, m), side)) else 0.0
  }

  lemma RefreshedSized(ts: seq<Tracked>, ls: seq<Level>, m: Model)
    requires Sized(ts)
    ensures Sized(RefreshedAll(ts, ls, m))
  {
    forall i | 0 <= i < |ts| ensures RefreshedAll(ts, ls, m)[i].quote.qty >= 0.0 { assert ts[i].quote.qty >= 0.0; }
  }

  lemma MergedSized(ts: seq<Tracked>, desired: seq<Quote>, levels: seq<Level>)
    requires forall q :: q in desired ==> q.qty >= 0.0
    ensures Sized(MergedAll(ts, desired, levels))
  {
    forall i | 0 <= i < |desired| ensures MergedAll(ts, desired, levels)[i].quote.qty >= 0.0 {
      assert desired[i] in desired;
    }
  }

  lemma SnapshotSized(s: Sim, e: Event, m: Model)
    requires e.BookSnapshot? && SizedQuotes(e) && Sized(s.bids) && Sized(s.asks)
    ensures var r := OnSnapshot(s, e, m); Sized(r.bids) && Sized(r.asks) && r.fills == s.fills
  {
    RefreshedSized(s.bids, e.bids, m);
    RefreshedSized(s.asks, e.asks, m);
    var r := OnSnapshot(s, e, m);
    MergedSized(RefreshedAll(s.bids, e.bids, m), SideQuotes(e.quotes, Buy), r.book.bids);
    MergedSized(RefreshedAll(s.asks, e.asks, m), SideQuotes(e.quotes, Sell), r.book.asks);
  }

  lemma TradeTotals(s: Sim, e: Event)
    requires e.Trade? && Sized(s.bids) && Sized(s.asks)
    ensures var r := OnTrade(s, e);
      && Sized(r.bids) && Sized(r.asks) && r.book == s.book
      && (if e.taker.Buy? then r.bids == s.bids else r.asks == s.asks)
      && SideTotal(r.fills, Sell) == SideTotal(s.fills, Sell) + Sizes(s.asks) - Sizes(r.asks)
      && SideTotal(r.fills, Buy) == SideTotal(s.fills, Buy) + Sizes(s.bids) - Sizes(r.bids)
  {
    var ts := if e.taker.Buy? then s.asks else s.bids;
    var d := Dispatched(ts, |ts|, e.price, e.qty, e.taker, |s.fills|);
    DispatchTotals(ts, |ts|, e.price, e.qty, e.taker, |s.fills|);
    AliveSizes(d.tracked);
    AliveSized(d.tracked);
    SideTotalAdds(s.fills, d.fills, Sell);
    SideTotalAdds(s.fills, d.fills, Buy);
  }

  /** Over every run, whatever the probability model: the fills booked as sales are exactly the
      size our asks lost to trades, and the fills booked as purchases what our bids lost; a
      trade touches only the side its taker meets. */
  lemma {:induction false} FillsBySide(es: seq<Event>, m: Model)
    requires SizedRun(es)
    ensures var s := After(es, m);
      && Sized(s.bids) && Sized(s.asks)
      && SideTotal(s.fills, Sell) == LostToTrades(es, m, Sell)
      && SideTotal(s.fills, Buy) == LostToTrades(es, m, Buy)
  {
    if es != [] {
      var front, e := es[..|es| - 1], es[|es| - 1];
      FillsBySide(front, m);
      assert SizedQuotes(e);
      if e.BookSnapshot? {
        SnapshotSized(After(front, m), e, m);
      } else {
        TradeTotals(After(front, m), e);
      }
    }
  }

  // ---- which quotes a snapshot leaves resting ----

  function QuoteOf(pair: QuotePair, side: Side): seq<Quote> {
    var o := if side.Buy? then pair.bid else pair.ask;
    if o.Some? then [o.value] else []
  }

  lemma SideQuotesCons(pair: QuotePair, qs: seq<QuotePair>, side: Side)
    ensures SideQuotes([pair] + qs, side) == QuoteOf(pair, side) + SideQuotes(qs, side)
  {
    assert ([pair] + qs)[1..] == qs;
  }

  /** Every pair contributes its quote of the side, in order. */
  lemma {:induction false} SideQuotesSnoc(qs: seq<QuotePair>, pair: QuotePair, side: Side)
    ensures SideQuotes([], side) == []
    ensures SideQuotes(qs + [pair], side) == SideQuotes(qs, side) + QuoteOf(pair, side)
  {
    if qs == [] {
      SideQuotesCons(pair, [], side);
      assert qs + [pair] == [pair] + [];
    } else {
      var first, rest := qs[0], qs[1..];
      SideQuotesSnoc(rest, pair, side);
      SideQuotesCons(first, rest, side);
      SideQuotesCons(first, rest + [pair], side);
      assert qs == [first] + rest && qs + [pair] == [first] + (rest + [pair]);
    }
  }

  /** A quote at a price not tracked before joins the back of the level: behind what the
      snapshot finally lists there, and behind nothing if it lists nothing. */
  predicate JoinsBack(t: Tracked, qty: real) {
    t.queue == Queue(if qty >= 0.0 then qty else 0.0, 0.0) && t.lastBookQty == qty
  }

  ghost predicate JoinsBehind(t: Tracked, levels: seq<Level>) {
    && (forall qty :: B.FinalMention(levels, t.quote.price, qty) ==> JoinsBack(t, qty))
    && (B.Unmentioned(levels, t.quote.price) ==> JoinsBack(t, 0.0))
  }

  /** After every run, a snapshot of both sides leaves exactly the desired quotes resting, in
      order and at the desired sizes, new prices at the back of their level; a snapshot with a
      side empty leaves the quotes that were there. */
  lemma SnapshotQuotes(es: seq<Event>, e: Event, m: Model, side: Side)
    requires e.BookSnapshot?
    ensures var before, after := TrackedOn(After(es, m), side), TrackedOn(After(es + [e], m), side);
      var desired := SideQuotes(e.quotes, side);
      if e.bids != [] && e.asks != [] then
        && |after| == |desired|
        && (forall i :: 0 <= i < |after| ==> after[i].quote == desired[i])
        && (forall i :: 0 <= i < |after| && (forall t :: t in before ==> t.quote.price != desired[i].price) ==>
              JoinsBehind(after[i], if side.Buy? then e.bids else e.asks))
      else
        |after| == |before| && forall i :: 0 <= i < |after| ==> after[i].quote == before[i].quote
    ensures After(es + [e], m).fills == After(es, m).fills
  {
    var s, r := After(es, m), After(es + [e], m);
    AfterSnoc(es, e, m);
    MidNeedsBothSides(s, e, m);
    if e.bids != [] && e.asks != [] {
      var ls := LevelsOn(e, side);
      var updated := RefreshedAll(TrackedOn(s, side), ls, m);
      var desired := SideQuotes(e.quotes, side);
      var after := TrackedOn(r, side);
      assert after == MergedAll(updated, desired, FromLevels(ls));
      forall i | 0 <= i < |after| && (forall t :: t in TrackedOn(s, side) ==> t.quote.price != desired[i].price)
        ensures JoinsBehind(after[i], ls)
      {
        NotTracked(TrackedOn(s, side), ls, m, desired[i].price);
        NewQuoteJoins(updated, desired[i], ls);
      }
    }
  }

  lemma NotTracked(ts: seq<Tracked>, ls: seq<Level>, m: Model, price: real)
    requires forall t :: t in ts ==> t.quote.price != price
    ensures Find(RefreshedAll(ts, ls, m), price) == None
  {
    FindRefreshed(ts, ls, m, price);
  }

  lemma NewQuoteJoins(existing: seq<Tracked>, q: Quote, ls: seq<Level>)
    requires Find(existing, q.price) == None
    ensures JoinsBehind(Merged(existing, q, FromLevels(ls)), ls)
  {
    var t := Merged(existing, q, FromLevels(ls));
    BookReadsLast(ls, q.price);
    forall qty ensures B.FinalMention(ls, q.price, qty) ==> JoinsBack(t, qty) {
      B.LastQtyIsFinal(ls, q.price, qty);
    }
    B.LastQtyIsFinal(ls, q.price, 0.0);
  }

  /** The depth update reads the first mention of a price. */
  lemma {:induction false} FirstMention(ls: seq<Level>, k: nat)
    requires k < |ls| && forall j :: 0 <= j < k ==> ls[j].price != ls[k].price
    ensures FirstQty(ls, ls[k].price) == ls[k].qty
  {
    if k > 0 {
      assert ls[0].price != ls[k].price && ls[k] == ls[1..][k - 1];
      forall j | 0 <= j < k - 1 ensures ls[1..][j].price != ls[k].price { assert ls[1..][j] == ls[j + 1]; }
      FirstMention(ls[1..], k - 1);
    }
  }
}
