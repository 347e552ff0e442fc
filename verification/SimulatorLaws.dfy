/** What the queue-aware simulator keeps in one trade and over whole runs. */
module SimulatorLaws {
  import opened Floats
  import opened OrderBook
  import opened Trading
  import opened Wrappers
  import opened QueueModel
  import opened Simulator

  // ---- one quote ----

  ghost predicate SoundQuote(t: Tracked) { t.queue.front >= 0.0 && t.quote.qty >= 0.0 }

  ghost predicate Sound(ts: seq<Tracked>) { forall i :: 0 <= i < |ts| ==> SoundQuote(ts[i]) }

  function Filled(t: Tracked, left: real): real {
    if Fills(t, left) then FillQty(t, left) else 0.0
  }

  /** What a touched quote absorbs is queue advanced plus quantity filled; it fills only once
      its queue is gone, never beyond its size, and passes on only what it cannot absorb. */
  lemma HitConserves(t: Tracked, left: real)
    requires SoundQuote(t) && left > 0.0
    ensures var r, c, f := Hit(t, left), Absorbed(t, left), Filled(t, left);
            && SoundQuote(r) && 0.0 <= c <= left
            && c == (t.queue.front - r.queue.front) + f
            && r.queue.cum == t.queue.cum + c && r.lastBookQty == t.lastBookQty
            && 0.0 <= f && f == t.quote.qty - r.quote.qty
            && (f > 0.0 ==> r.queue.front == 0.0)
            && (c < left ==> r.queue.front == 0.0 && r.quote.qty == 0.0)
  {
  }

  /** A quote whose front has been driven below zero fills more than it absorbs exactly when
      the trade is smaller than the quote. */
  lemma OverfillIff(t: Tracked, left: real)
    requires t.quote.qty > 0.0 && left > 0.0
    ensures Filled(t, left) <= Absorbed(t, left) <==> t.queue.front >= 0.0 || left >= t.quote.qty
  {
  }

  // ---- one trade ----

  function Fronts(ts: seq<Tracked>): real {
    if ts == [] then 0.0 else Fronts(ts[..|ts| - 1]) + ts[|ts| - 1].queue.front
  }

  function Sizes(ts: seq<Tracked>): real {
    if ts == [] then 0.0 else Sizes(ts[..|ts| - 1]) + ts[|ts| - 1].quote.qty
  }

  function FilledTotal(fs: seq<Fill>): real {
    if fs == [] then 0.0 else FilledTotal(fs[..|fs| - 1]) + fs[|fs| - 1].qty
  }

  lemma {:induction false} ReplaceSums(ts: seq<Tracked>, i: nat, t: Tracked)
    requires i < |ts|
    ensures Fronts(ts[i := t]) == Fronts(ts) - ts[i].queue.front + t.queue.front
    ensures Sizes(ts[i := t]) == Sizes(ts) - ts[i].quote.qty + t.quote.qty
  {
    var n := |ts| - 1;
    if i == n {
      assert ts[i := t][..n] == ts[..n];
    } else {
      assert ts[i := t][..n] == ts[..n][i := t];
      ReplaceSums(ts[..n], i, t);
    }
  }

  lemma {:induction false} FilledTotalAdds(a: seq<Fill>, b: seq<Fill>)
    ensures FilledTotal(a + b) == FilledTotal(a) + FilledTotal(b)
  {
    if b == [] {
      assert a + b == a;
    } else {
      assert (a + b)[..|a + b| - 1] == a + b[..|b| - 1];
      FilledTotalAdds(a, b[..|b| - 1]);
    }
  }

  lemma FilledOne(t: Tracked, left: real, taker: Side, id: nat)
    ensures FilledTotal(NewFill(t, left, taker, id)) == Filled(t, left)
  {
    if Fills(t, left) {
      var f := NewFill(t, left, taker, id)[0];
      assert [f][..0] == [];
      assert FilledTotal([f]) == FilledTotal([f][..0]) + f.qty;
    }
  }

  /** Quantities balance over a dispatch: what the trade lost is the queue advanced plus the
      quantity filled, which is the size the quotes lost. */
  ghost predicate Balanced(ts: seq<Tracked>, qty: real, d: Dispatch) {
    && |d.tracked| == |ts| && Sound(d.tracked)
    && qty - d.left == (Fronts(ts) - Fronts(d.tracked)) + FilledTotal(d.fills)
    && FilledTotal(d.fills) == Sizes(ts) - Sizes(d.tracked)
    && 0.0 <= FilledTotal(d.fills) <= qty - d.left && d.left >= 0.0
  }

  /** A quote loses size only with its queue used up, and tallies what both lost; one the trade
      does not reach is left alone; and the trade gets past one it does reach only by
      exhausting it. */
  predicate KeepsPriority(before: Tracked, after: Tracked, reached: bool, left: real) {
    && after.quote.price == before.quote.price && after.lastBookQty == before.lastBookQty
    && after.queue.cum - before.queue.cum
         == (before.queue.front - after.queue.front) + (before.quote.qty - after.quote.qty)
    && after.queue.front <= before.queue.front && after.quote.qty <= before.quote.qty
    && (!reached ==> after == before)
    && (after.quote.qty < before.quote.qty ==> after.queue.front == 0.0)
    && (reached && left > 0.0 ==> after.queue.front == 0.0 && after.quote.qty == 0.0)
  }

  /** Price-time priority over the first n quotes: a buyer reaches those at or below the trade
      price, a seller those at or above it. */
  ghost predicate Prioritised(ts: seq<Tracked>, n: nat, price: real, taker: Side, d: Dispatch)
    requires |d.tracked| == |ts|
  {
    forall i {:trigger d.tracked[i]} :: 0 <= i < |ts| ==>
      KeepsPriority(ts[i], d.tracked[i],
                    i < n && if taker.Buy? then ts[i].quote.price <= price else ts[i].quote.price >= price, d.left)
  }

  lemma OfferBalances(ts: seq<Tracked>, qty: real, d: Dispatch, i: nat,
                                         price: real, taker: Side, id: nat)
    requires i < |d.tracked| && Balanced(ts, qty, d)
    ensures Balanced(ts, qty, Offered(d, i, price, taker, id))
  {
    var t := d.tracked[i];
    if d.left > 0.0 && Touched(t.quote, price, taker) {
      assert SoundQuote(t);
      HitConserves(t, d.left);
      ReplaceSums(d.tracked, i, Hit(t, d.left));
      var more := NewFill(t, d.left, taker, id + |d.fills|);
      FilledOne(t, d.left, taker, id + |d.fills|);
      FilledTotalAdds(d.fills, more);
    }
  }

  lemma OfferPrioritises(ts: seq<Tracked>, d: Dispatch, i: nat, price: real, taker: Side, id: nat)
    requires i < |d.tracked| == |ts| && Sound(d.tracked) && d.left >= 0.0
    requires Prioritised(ts, i, price, taker, d)
    ensures Prioritised(ts, i + 1, price, taker, Offered(d, i, price, taker, id))
  {
    var t := d.tracked[i];
    assert t == ts[i];
    if d.left > 0.0 && Touched(t.quote, price, taker) {
      assert SoundQuote(t);
      HitConserves(t, d.left);
    }
  }

  lemma NothingOffered(ts: seq<Tracked>, price: real, qty: real, taker: Side)
    requires Sound(ts) && qty >= 0.0
    ensures Balanced(ts, qty, Dispatch(ts, qty, [])) && Prioritised(ts, 0, price, taker, Dispatch(ts, qty, []))
  {
  }

  /** One trade balances: it never fills more than it brings. */
  lemma {:induction false} DispatchBalances(ts: seq<Tracked>, n: nat, price: real, qty: real,
                                            taker: Side, id: nat)
    requires Sound(ts) && n <= |ts| && qty >= 0.0
    ensures Balanced(ts, qty, Dispatched(ts, n, price, qty, taker, id))
  {
    if n == 0 {
      NothingOffered(ts, price, qty, taker);
    } else {
      DispatchBalances(ts, n - 1, price, qty, taker, id);
      OfferBalances(ts, qty, Dispatched(ts, n - 1, price, qty, taker, id), n - 1, price, taker, id);
    }
  }

  /** One trade respects the queues and the order of the quotes. */
  lemma {:induction false} DispatchPrioritises(ts: seq<Tracked>, n: nat, price: real, qty: real,
                                               taker: Side, id: nat)
    requires Sound(ts) && n <= |ts| && qty >= 0.0
    ensures Prioritised(ts, n, price, taker, Dispatched(ts, n, price, qty, taker, id))
  {
    if n == 0 {
      NothingOffered(ts, price, qty, taker);
    } else {
      DispatchPrioritises(ts, n - 1, price, qty, taker, id);
      DispatchBalances(ts, n - 1, price, qty, taker, id);
      OfferPrioritises(ts, Dispatched(ts, n - 1, price, qty, taker, id), n - 1, price, taker, id);
    }
  }

  /** A fill of a quote the trade reaches: on the side opposite to the taker, at the quote's
      price, for what the quote lost. */
  predicate FillOf(before: Quote, after: Quote, price: real, taker: Side, id: nat, f: Fill) {
    && (if taker.Buy? then before.price <= price else before.price >= price)
    && f == Fill(id, if taker.Buy? then Sell else Buy, before.price, before.qty - after.qty)
  }

  /** The fills of one trade: in order, with consecutive ids, each of one of the quotes listed;
      no other quote changes. */
  ghost predicate Labelled(
      ts: seq<Tracked>, price: real, taker: Side, id: nat, d: Dispatch, quotes: seq<nat>)
    requires |d.tracked| == |ts|
  {
    && |quotes| == |d.fills|
    && (forall k :: 0 <= k < |quotes| ==> quotes[k] < |ts|)
    && (forall k, l :: 0 <= k < l < |quotes| ==> quotes[k] < quotes[l])
    && (forall k :: 0 <= k < |quotes| ==>
          FillOf(ts[quotes[k]].quote, d.tracked[quotes[k]].quote, price, taker, id + k, d.fills[k]))
    && (forall i :: 0 <= i < |ts| && i !in quotes ==> d.tracked[i].quote == ts[i].quote)
  }

  lemma HitLabels(t: Tracked, left: real, price: real, taker: Side, id: nat)
    requires Touched(t.quote, price, taker)
    ensures if Fills(t, left) then
              |NewFill(t, left, taker, id)| == 1
              && FillOf(t.quote, Hit(t, left).quote, price, taker, id, NewFill(t, left, taker, id)[0])
            else NewFill(t, left, taker, id) == [] && Hit(t, left).quote == t.quote
  {
  }

  lemma LabelledLonger(ts: seq<Tracked>, d: Dispatch, e: Dispatch, i: nat, price: real, taker: Side, id: nat,
                       before: seq<nat>)
    requires i < |d.tracked| == |ts| && Labelled(ts, price, taker, id, d, before)
    requires forall k :: 0 <= k < |before| ==> before[k] < i
    requires |e.tracked| == |ts| && e.tracked == d.tracked[i := e.tracked[i]] && |e.fills| == |d.fills| + 1
    requires e.fills[..|d.fills|] == d.fills
    requires FillOf(ts[i].quote, e.tracked[i].quote, price, taker, id + |d.fills|, e.fills[|d.fills|])
    ensures Labelled(ts, price, taker, id, e, before + [i])
  {
    var quotes := before + [i];
    forall k | 0 <= k < |quotes|
      ensures FillOf(ts[quotes[k]].quote, e.tracked[quotes[k]].quote, price, taker, id + k, e.fills[k])
    {
      if k < |before| { assert e.fills[k] == e.fills[..|d.fills|][k]; }
    }
    forall j | 0 <= j < |ts| && j !in quotes ensures e.tracked[j].quote == ts[j].quote {
      assert quotes[|before|] == i;
      assert j !in before;
    }
  }

  lemma OfferLabels(ts: seq<Tracked>, d: Dispatch, i: nat, price: real, taker: Side, id: nat, before: seq<nat>)
    returns (quotes: seq<nat>)
    requires i < |d.tracked| == |ts| && d.tracked[i] == ts[i]
    requires Labelled(ts, price, taker, id, d, before) && forall k :: 0 <= k < |before| ==> before[k] < i
    ensures Labelled(ts, price, taker, id, Offered(d, i, price, taker, id), quotes)
    ensures forall k :: 0 <= k < |quotes| ==> quotes[k] < i + 1
  {
    quotes := before;
    if d.left > 0.0 && Touched(ts[i].quote, price, taker) {
      HitLabels(ts[i], d.left, price, taker, id + |d.fills|);
      if Fills(ts[i], d.left) {
        LabelledLonger(ts, d, Offered(d, i, price, taker, id), i, price, taker, id, before);
        quotes := before + [i];
      }
    }
  }

  lemma {:induction false} FillsLabelled(ts: seq<Tracked>, n: nat, price: real, qty: real,
                                         taker: Side, id: nat)
    returns (quotes: seq<nat>)
    requires n <= |ts|
    ensures Labelled(ts, price, taker, id, Dispatched(ts, n, price, qty, taker, id), quotes)
    ensures forall k :: 0 <= k < |quotes| ==> quotes[k] < n
    ensures forall i :: n <= i < |ts| ==> Dispatched(ts, n, price, qty, taker, id).tracked[i] == ts[i]
  {
    if n == 0 {
      quotes := [];
    } else {
      var before := FillsLabelled(ts, n - 1, price, qty, taker, id);
      quotes := OfferLabels(ts, Dispatched(ts, n - 1, price, qty, taker, id), n - 1, price, taker, id, before);
    }
  }

  /** A trade with nothing to give changes nothing. */
  lemma EmptyTrade(ts: seq<Tracked>, n: nat, price: real, qty: real, taker: Side, id: nat)
    requires n <= |ts| && qty <= 0.0
    ensures Dispatched(ts, n, price, qty, taker, id) == Dispatch(ts, qty, [])
  {
    DispatchExhausted(ts, 0, n, price, qty, taker, id);
  }

  // ---- whole runs: fills against trades ----

  ghost predicate ValuedLevels(ls: seq<Level>) { forall l :: l in ls ==> l.qty >= 0.0 }

  /** No negative quantity in the snapshot. */
  ghost predicate Valued(e: Event) {
    e.BookSnapshot? ==> ValuedLevels(e.bids) && ValuedLevels(e.asks)
  }

  ghost predicate ValuedRun(es: seq<Event>) { forall i :: 0 <= i < |es| ==> Valued(es[i]) }

  ghost predicate SizedQuotes(e: Event) {
    e.BookSnapshot? ==>
      && (forall q :: q in SideQuotes(e.quotes, Buy) ==> q.qty >= 0.0)
      && (forall q :: q in SideQuotes(e.quotes, Sell) ==> q.qty >= 0.0)
  }

  ghost predicate SizedRun(es: seq<Event>) { forall i :: 0 <= i < |es| ==> SizedQuotes(es[i]) }

  function TradedVolume(es: seq<Event>): real {
    if es == [] then 0.0
    else
      var e := es[|es| - 1];
      TradedVolume(es[..|es| - 1]) + if e.Trade? then Max(e.qty, 0.0) else 0.0
  }

  function BookQty(levels: seq<Level>, price: real): real { GetOr(Get(levels, price), 0.0) }

  lemma {:induction false} FirstQtyValued(ls: seq<Level>, price: real)
    requires ValuedLevels(ls)
    ensures FirstQty(ls, price) >= 0.0
  {
    if ls != [] { FirstQtyValued(ls[1..], price); }
  }

  /** The book reads the last mention of a price. */
  lemma BookReadsLast(ls: seq<Level>, price: real)
    ensures BookQty(FromLevels(ls), price) == GetOr(LastQty(ls, price), 0.0)
    ensures ValuedLevels(ls) ==> BookQty(FromLevels(ls), price) >= 0.0
  {
    SnapshotMeaning(ls);
    LastQtyMentioned(ls, price);
  }

  /** What a tracked quote needs for the next depth update to be sound. */
  ghost predicate Tallied(t: Tracked) { SoundQuote(t) && t.queue.cum >= 0.0 && t.lastBookQty >= 0.0 }

  ghost predicate AllTallied(ts: seq<Tracked>) { forall i :: 0 <= i < |ts| ==> Tallied(ts[i]) }

  /** A favourable model keeps the front non-negative even when it is ahead of the book. */
  lemma FrontKept(q: Queue, prev: real, now: real, m: Model)
    requires AtLeastLinear(m) && q.front >= 0.0 && q.cum >= 0.0 && prev >= 0.0 && now >= 0.0
    ensures DepthChanged(q, prev, now, m).front >= 0.0
  {
    if q.front <= prev {
      if prev > 0.0 { assert Favours(m, q.front, prev - q.front); }
      FavouredStays(q, prev, now, m);
    } else {
      DepthBounds(q, prev, now, m);
    }
  }

  lemma RefreshTallied(ts: seq<Tracked>, ls: seq<Level>, m: Model)
    requires AtLeastLinear(m) && AllTallied(ts) && ValuedLevels(ls)
    ensures AllTallied(RefreshedAll(ts, ls, m))
  {
    forall i | 0 <= i < |ts| ensures Tallied(Refreshed(ts[i], ls, m)) {
      var t := ts[i];
      assert Tallied(t);
      FirstQtyValued(ls, t.quote.price);
      FrontKept(t.queue, t.lastBookQty, FirstQty(ls, t.quote.price), m);
      DepthBounds(t.queue, t.lastBookQty, FirstQty(ls, t.quote.price), m);
    }
  }

  lemma MergeTallied(ts: seq<Tracked>, desired: seq<Quote>, levels: seq<Level>)
    requires AllTallied(ts) && forall q :: q in desired ==> q.qty >= 0.0
    requires forall p :: BookQty(levels, p) >= 0.0
    ensures AllTallied(MergedAll(ts, desired, levels))
  {
    forall i | 0 <= i < |desired| ensures Tallied(Merged(ts, desired[i], levels)) {
      var prev := Find(ts, desired[i].price);
      assert desired[i] in desired && BookQty(levels, desired[i].price) >= 0.0;
      if prev.Some? {
        var k :| 0 <= k < |ts| && ts[k] == prev.value;
        assert Tallied(ts[k]);
      }
    }
  }

  lemma {:induction false} DispatchTallied(ts: seq<Tracked>, n: nat, price: real, qty: real, taker: Side, id: nat)
    requires AllTallied(ts) && n <= |ts|
    ensures AllTallied(Dispatched(ts, n, price, qty, taker, id).tracked)
  {
    if n > 0 {
      DispatchTallied(ts, n - 1, price, qty, taker, id);
      var d := Dispatched(ts, n - 1, price, qty, taker, id);
      assert Tallied(d.tracked[n - 1]);
      if d.left > 0.0 { HitConserves(d.tracked[n - 1], d.left); }
    }
  }

  /** Exactly the quotes with size left survive. */
  lemma {:induction false} AliveMembers(ts: seq<Tracked>, t: Tracked)
    ensures t in Alive(ts) <==> t in ts && t.quote.qty > 0.0
  {
    if ts != [] {
      AliveMembers(ts[1..], t);
      assert t in ts <==> t == ts[0] || t in ts[1..];
    }
  }

  lemma AliveTallied(ts: seq<Tracked>)
    requires AllTallied(ts)
    ensures AllTallied(Alive(ts))
  {
    forall i | 0 <= i < |Alive(ts)| ensures Tallied(Alive(ts)[i]) {
      AliveMembers(ts, Alive(ts)[i]);
      assert Alive(ts)[i] in ts;
    }
  }

  ghost predicate Bounded(s: Sim, volume: real) {
    AllTallied(s.bids) && AllTallied(s.asks) && FilledTotal(s.fills) <= volume
  }

  lemma SnapshotBounded(s: Sim, e: Event, m: Model, volume: real)
    requires Bounded(s, volume) && e.BookSnapshot? && Valued(e) && SizedQuotes(e) && AtLeastLinear(m)
    ensures Bounded(OnSnapshot(s, e, m), volume)
  {
    RefreshTallied(s.bids, e.bids, m);
    RefreshTallied(s.asks, e.asks, m);
    var bids, asks := FromLevels(e.bids), FromLevels(e.asks);
    forall p ensures BookQty(bids, p) >= 0.0 && BookQty(asks, p) >= 0.0 {
      BookReadsLast(e.bids, p);
      BookReadsLast(e.asks, p);
    }
    MergeTallied(RefreshedAll(s.bids, e.bids, m), SideQuotes(e.quotes, Buy), bids);
    MergeTallied(RefreshedAll(s.asks, e.asks, m), SideQuotes(e.quotes, Sell), asks);
  }

  lemma TradeBounded(ts: seq<Tracked>, price: real, qty: real, taker: Side, id: nat)
    requires AllTallied(ts)
    ensures var d := Dispatched(ts, |ts|, price, qty, taker, id);
            AllTallied(Alive(d.tracked)) && FilledTotal(d.fills) <= Max(qty, 0.0)
  {
    assert Sound(ts) by { forall i | 0 <= i < |ts| ensures SoundQuote(ts[i]) { assert Tallied(ts[i]); } }
    if qty >= 0.0 { DispatchBalances(ts, |ts|, price, qty, taker, id); }
    else { EmptyTrade(ts, |ts|, price, qty, taker, id); }
    DispatchTallied(ts, |ts|, price, qty, taker, id);
    AliveTallied(Dispatched(ts, |ts|, price, qty, taker, id).tracked);
  }

  /** With a model that never short-changes the back of the queue, every front stays
      non-negative and the run never fills more than was traded, repeated prices included. */
  lemma {:induction false} RunBounded(es: seq<Event>, m: Model)
    requires ValuedRun(es) && SizedRun(es) && AtLeastLinear(m)
    ensures Bounded(After(es, m), TradedVolume(es))
  {
    if es != [] {
      var e := es[|es| - 1];
      var s := After(es[..|es| - 1], m);
      RunBounded(es[..|es| - 1], m);
      assert Valued(e) && SizedQuotes(e);
      if e.BookSnapshot? {
        SnapshotBounded(s, e, m, TradedVolume(es[..|es| - 1]));
      } else if e.taker.Buy? {
        TradeBounded(s.asks, e.price, e.qty, Buy, |s.fills|);
        FilledTotalAdds(s.fills, Dispatched(s.asks, |s.asks|, e.price, e.qty, Buy, |s.fills|).fills);
      } else {
        TradeBounded(s.bids, e.price, e.qty, Sell, |s.fills|);
        FilledTotalAdds(s.fills, Dispatched(s.bids, |s.bids|, e.price, e.qty, Sell, |s.fills|).fills);
      }
    }
  }

  lemma AfterSnoc(es: seq<Event>, e: Event, m: Model)
    ensures After(es + [e], m) == OnEvent(After(es, m), e, m)
    ensures TradedVolume(es + [e]) == TradedVolume(es) + if e.Trade? then Max(e.qty, 0.0) else 0.0
  {
    assert (es + [e])[..|es|] == es;
  }

  lemma OneBid(pair: QuotePair, q: Quote)
    requires pair.bid == Some(q)
    ensures SideQuotes([pair], Buy) == [q]
  {
    assert [pair][1..] == [];
  }

  lemma SingleLevel(l: Level)
    ensures FromLevels([l]) == [l] && FirstQty([l], l.price) == l.qty
  {
    assert [l][..0] == [];
  }

  // ---- and conversely ----

  function OneLevelSnapshot(qty: real, seqNo: nat): Event {
    BookSnapshot([Level(100.0, qty)], [Level(101.0, 1.0)], seqNo,
                 [QuotePair(Some(Quote(100.0, 2.0)), None)])
  }

  /** Join behind `f`, let `b` arrive behind us, and empty the level; then trade one unit. */
  function Emptied(f: real, b: real): seq<Event> {
    [OneLevelSnapshot(f, 1)] + [OneLevelSnapshot(f + b, 2)] + [OneLevelSnapshot(0.0, 3)]
  }

  function ShortChange(f: real, b: real): seq<Event> {
    Emptied(f, b) + [Trade(100.0, 1.0, Sell)]
  }

  lemma OneLevelStep(s: Sim, qty: real, seqNo: nat, m: Model)
    requires |s.bids| <= 1 && (s.bids != [] ==> s.bids[0].quote == Quote(100.0, 2.0)) && s.asks == []
    ensures var r := OnSnapshot(s, OneLevelSnapshot(qty, seqNo), m);
            && r.asks == [] && r.fills == s.fills
            && r.bids == [Tracked(Quote(100.0, 2.0),
                                  if s.bids == [] then Joined(qty)
                                  else DepthChanged(s.bids[0].queue, s.bids[0].lastBookQty, qty, m), qty)]
  {
    var e := OneLevelSnapshot(qty, seqNo);
    var r := OnSnapshot(s, e, m);
    OneBid(e.quotes[0], Quote(100.0, 2.0));
    SingleLevel(Level(100.0, qty));
    SingleLevel(Level(101.0, 1.0));
    assert e.quotes[1..] == [];
    assert SideQuotes(e.quotes, Sell) == [];
    assert r.book.Mid().Some?;
    assert s.bids != [] ==> RefreshedAll(s.bids, e.bids, m) == [Refreshed(s.bids[0], e.bids, m)];
  }

  lemma EmptiedState(f: real, b: real, m: Model)
    requires f >= 0.0 && b >= 0.0 && f + b > 0.0 && !Favours(m, f, b)
    ensures var s := After(Emptied(f, b), m);
            && s.fills == [] && |s.bids| == 1
            && s.bids[0].quote == Quote(100.0, 2.0) && s.bids[0].queue.front < 0.0
    ensures TradedVolume(Emptied(f, b)) == 0.0
  {
    var e1, e2, e3 := OneLevelSnapshot(f, 1), OneLevelSnapshot(f + b, 2), OneLevelSnapshot(0.0, 3);
    AfterSnoc([], e1, m);
    AfterSnoc([e1], e2, m);
    AfterSnoc([e1] + [e2], e3, m);
    assert [] + [e1] == [e1];
    OneLevelStep(START, f, 1, m);
    OneLevelStep(After([e1], m), f + b, 2, m);
    OneLevelStep(After([e1] + [e2], m), 0.0, 3, m);
    assert After([e1] + [e2], m).bids == [Tracked(Quote(100.0, 2.0), Queue(f, 0.0), f + b)];
    EmptiedGoesNegative(f, b, m);
  }

  lemma ShortChangeOverfills(f: real, b: real, m: Model)
    requires f >= 0.0 && b >= 0.0 && f + b > 0.0 && !Favours(m, f, b)
    ensures ValuedRun(ShortChange(f, b)) && SizedRun(ShortChange(f, b))
    ensures TradedVolume(ShortChange(f, b)) == 1.0
    ensures FilledTotal(After(ShortChange(f, b), m).fills) > 1.0
  {
    var s := After(Emptied(f, b), m);
    EmptiedState(f, b, m);
    AfterSnoc(Emptied(f, b), Trade(100.0, 1.0, Sell), m);
    OverfillsAlone(s.bids);
    assert [] + Dispatched(s.bids, 1, 100.0, 1.0, Sell, 0).fills
        == Dispatched(s.bids, 1, 100.0, 1.0, Sell, 0).fills;
    ValuedShortChange(f, b);
  }

  lemma {:induction false} OverfillsAlone(ts: seq<Tracked>)
    requires |ts| == 1 && ts[0].quote == Quote(100.0, 2.0) && ts[0].queue.front < 0.0
    ensures FilledTotal(Dispatched(ts, 1, 100.0, 1.0, Sell, 0).fills) > 1.0
  {
    var t := ts[0];
    FilledOne(t, 1.0, Sell, 0);
    OverfillIff(t, 1.0);
    assert Dispatched(ts, 0, 100.0, 1.0, Sell, 0) == Dispatch(ts, 1.0, []);
    assert [] + NewFill(t, 1.0, Sell, 0) == NewFill(t, 1.0, Sell, 0);
  }

  lemma ValuedShortChange(f: real, b: real)
    requires f >= 0.0 && b >= 0.0
    ensures ValuedRun(ShortChange(f, b)) && SizedRun(ShortChange(f, b))
  {
    var es := ShortChange(f, b);
    forall i | 0 <= i < 4 ensures Valued(es[i]) && SizedQuotes(es[i]) {
      if i < 3 {
        OneBid(es[i].quotes[0], Quote(100.0, 2.0));
        assert es[i].quotes[1..] == [];
        assert SideQuotes(es[i].quotes, Sell) == [];
      }
    }
  }

  ghost predicate Conserves(m: Model) {
    forall es :: ValuedRun(es) && SizedRun(es) ==> FilledTotal(After(es, m).fills) <= TradedVolume(es)
  }

  /** Fill conservation over whole runs, exactly characterised: no run of non-negative
      quantities fills more than was traded if and only if the model always gives the back at least its share. */
  lemma ConservationIff(m: Model)
    ensures Conserves(m) <==> AtLeastLinear(m)
  {
    if AtLeastLinear(m) {
      forall es | ValuedRun(es) && SizedRun(es)
        ensures FilledTotal(After(es, m).fills) <= TradedVolume(es)
      {
        RunBounded(es, m);
      }
    } else {
      var f, b :| f >= 0.0 && b >= 0.0 && f + b > 0.0 && !Favours(m, f, b);
      ShortChangeOverfills(f, b, m);
      var es := ShortChange(f, b);
      assert FilledTotal(After(es, m).fills) > TradedVolume(es);
    }
  }

  // ---- the shipped models ----

  /** A weight normalised at one, as every power is, conserves exactly when it is the
      quantity itself: among the exponents, only 1 does. */
  lemma PowerConservesIff(g: real -> real)
    requires Weight(g) && g(1.0) == 1.0
    ensures Conserves(ShareModel(g)) <==> forall x :: x >= 0.0 ==> g(x) == x
  {
    ConservationIff(ShareModel(g));
    ShareModelIff(g);
    ProportionalToOne(g);
  }

  lemma ProportionalToOne(g: real -> real)
    requires g(1.0) == 1.0
    ensures (forall f, b :: f >= 0.0 && b >= 0.0 ==> Proportional(g, f, b)) <==> forall x :: x >= 0.0 ==> g(x) == x
  {
    if forall f, b :: f >= 0.0 && b >= 0.0 ==> Proportional(g, f, b) {
      forall x | x >= 0.0 ensures g(x) == x { assert Proportional(g, 1.0, x); }
    }
    if forall x :: x >= 0.0 ==> g(x) == x {
      forall f, b | f >= 0.0 && b >= 0.0 ensures Proportional(g, f, b) {
        assert g(f) == f && g(b) == b;
      }
    }
  }

  /** What is used of the natural logarithm. */
  ghost predicate IsLogarithm(ln: real -> real) {
    && (forall x, y :: x > 0.0 && y > 0.0 ==> ln(x * y) == ln(x) + ln(y))
    && (forall x :: x > 1.0 ==> ln(x) > 0.0)
  }

  /** The default model overfills: it gives three units behind one less than their share. */
  lemma LogOverfills(ln: real -> real)
    requires IsLogarithm(ln)
    ensures !Conserves(LogModel(ln))
  {
    var g := (x: real) => ln(1.0 + x);
    assert ln(1.0 * 1.0) == ln(1.0) + ln(1.0) && ln(2.0 * 2.0) == ln(2.0) + ln(2.0);
    assert g(0.0) == 0.0 && g(1.0) == ln(2.0) && g(3.0) == ln(4.0);
    assert Weight(g);
    assert !Proportional(g, 1.0, 3.0);
    ShareModelIff(g);
    ConservationIff(ShareModel(g));
  }

  /** So of the models that ship, exponent 1 conserves, and exponent 2 and the default do not. */
  lemma ShippedModels(ln: real -> real)
    requires IsLogarithm(ln)
    ensures Conserves(LinearModel()) && !Conserves(SquareModel()) && !Conserves(LogModel(ln))
  {
    assert Weight(Power1) && Weight(Power2);
    PowerConservesIff(Power1);
    PowerConservesIff(Power2);
    assert Power2(2.0) != 2.0;
    LogOverfills(ln);
  }
}
