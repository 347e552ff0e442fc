/** Tracked quotes against the latest book over whole runs: when a snapshot keeps every
    quote's recorded quantity equal to the book's and no queue front beyond it. */
module AnchorLaws {
  import opened Floats
  import opened OrderBook
  import opened Trading
  import opened QueueModel
  import opened Simulator
  import opened SimulatorLaws
  import opened Wrappers

  // ---- one depth update ----

  ghost predicate DistinctPrices(ls: seq<Level>) {
    forall i, j :: 0 <= i < j < |ls| ==> ls[i].price != ls[j].price
  }

  /** No price's first mention, which the depth update reads, exceeds its last, which the
      book keeps. */
  predicate FirstWithinLast(ls: seq<Level>) {
    forall i :: 0 <= i < |ls| ==> FirstQty(ls, ls[i].price) <= GetOr(LastQty(ls, ls[i].price), 0.0)
  }

  predicate FirstIsLast(ls: seq<Level>) {
    forall i :: 0 <= i < |ls| ==> FirstQty(ls, ls[i].price) == GetOr(LastQty(ls, ls[i].price), 0.0)
  }

  lemma {:induction false} Unmentioned(ls: seq<Level>, price: real)
    requires forall i :: 0 <= i < |ls| ==> ls[i].price != price
    ensures FirstQty(ls, price) == 0.0 && LastQty(ls, price) == None
  {
    if ls != [] {
      Unmentioned(ls[1..], price);
      LastQtyMentioned(ls, price);
    }
  }

  lemma ReadsAt(ls: seq<Level>, price: real)
    ensures FirstWithinLast(ls) ==> FirstQty(ls, price) <= BookQty(FromLevels(ls), price)
    ensures FirstIsLast(ls) ==> FirstQty(ls, price) == BookQty(FromLevels(ls), price)
  {
    BookReadsLast(ls, price);
    if i :| 0 <= i < |ls| && ls[i].price == price {
      assert FirstWithinLast(ls) ==> FirstQty(ls, ls[i].price) <= GetOr(LastQty(ls, ls[i].price), 0.0);
    } else {
      Unmentioned(ls, price);
    }
  }

  lemma WithinIff(ls: seq<Level>)
    ensures FirstWithinLast(ls) <==> forall p :: FirstQty(ls, p) <= BookQty(FromLevels(ls), p)
  {
    if FirstWithinLast(ls) {
      forall p ensures FirstQty(ls, p) <= BookQty(FromLevels(ls), p) { ReadsAt(ls, p); }
    } else {
      var i :| 0 <= i < |ls| && FirstQty(ls, ls[i].price) > GetOr(LastQty(ls, ls[i].price), 0.0);
      BookReadsLast(ls, ls[i].price);
      assert FirstQty(ls, ls[i].price) > BookQty(FromLevels(ls), ls[i].price);
    }
  }

  lemma SameIff(ls: seq<Level>)
    ensures FirstIsLast(ls) <==> forall p :: FirstQty(ls, p) == BookQty(FromLevels(ls), p)
  {
    if FirstIsLast(ls) {
      forall p ensures FirstQty(ls, p) == BookQty(FromLevels(ls), p) { ReadsAt(ls, p); }
    } else {
      var i :| 0 <= i < |ls| && FirstQty(ls, ls[i].price) != GetOr(LastQty(ls, ls[i].price), 0.0);
      BookReadsLast(ls, ls[i].price);
      assert FirstQty(ls, ls[i].price) != BookQty(FromLevels(ls), ls[i].price);
    }
  }

  lemma {:induction false} FirstQtyAt(ls: seq<Level>, k: nat)
    requires k < |ls| && DistinctPrices(ls)
    ensures FirstQty(ls, ls[k].price) == ls[k].qty
  {
    if k > 0 {
      assert ls[k] == ls[1..][k - 1] && ls[0].price != ls[k].price;
      FirstQtyAt(ls[1..], k - 1);
    }
  }

  /** Distinct prices are a special case. */
  lemma DistinctIsFirstIsLast(ls: seq<Level>)
    requires DistinctPrices(ls)
    ensures FirstIsLast(ls) && FirstWithinLast(ls)
  {
    forall i | 0 <= i < |ls| ensures FirstQty(ls, ls[i].price) == GetOr(LastQty(ls, ls[i].price), 0.0) {
      LastQtyMentioned(ls, ls[i].price);
      assert Level(ls[i].price, ls[i].qty) in ls;
      var k :| 0 <= k < |ls| && ls[k] == Level(ls[i].price, LastQty(ls, ls[i].price).value);
      FirstQtyAt(ls, k);
    }
  }

  /** For every model: a depth update leaves no front, whatever the queue was, beyond the
      rebuilt book if and only if no price's first mention exceeds its last. */
  lemma RefreshFitsIff(ls: seq<Level>, m: Model)
    ensures (forall t: Tracked :: Refreshed(t, ls, m).queue.front <= BookQty(FromLevels(ls), t.quote.price))
      <==> FirstWithinLast(ls)
  {
    WithinIff(ls);
    if FirstWithinLast(ls) {
      forall t: Tracked ensures Refreshed(t, ls, m).queue.front <= BookQty(FromLevels(ls), t.quote.price) {
        DepthBounds(t.queue, t.lastBookQty, FirstQty(ls, t.quote.price), m);
      }
    } else {
      var p :| FirstQty(ls, p) > BookQty(FromLevels(ls), p);
      var f := FirstQty(ls, p);
      assert Refreshed(Tracked(Quote(p, 1.0), Queue(f, 0.0), f), ls, m).queue.front == f;
    }
  }

  // ---- whole runs ----

  /** A tracker agrees with the latest book and is not ahead of it. */
  ghost predicate Anchored(t: Tracked, levels: seq<Level>) {
    && t.queue.front <= t.lastBookQty && t.queue.cum >= 0.0
    && t.lastBookQty == BookQty(levels, t.quote.price) && t.lastBookQty >= 0.0
  }

  ghost predicate AllAnchored(ts: seq<Tracked>, levels: seq<Level>) {
    forall i :: 0 <= i < |ts| ==> Anchored(ts[i], levels)
  }

  ghost predicate BookAnchored(s: Sim) {
    AllAnchored(s.bids, s.book.bids) && AllAnchored(s.asks, s.book.asks)
  }

  /** With both sides present the quotes are merged against the new book, which forgives a
      rising repeat; with a side missing the merge is skipped. */
  predicate TameLevels(bids: seq<Level>, asks: seq<Level>) {
    if bids != [] && asks != [] then FirstWithinLast(bids) && FirstWithinLast(asks)
    else FirstIsLast(bids) && FirstIsLast(asks)
  }

  ghost predicate Tame(e: Event) { Valued(e) && (e.BookSnapshot? ==> TameLevels(e.bids, e.asks)) }

  ghost predicate TameRun(es: seq<Event>) { forall i :: 0 <= i < |es| ==> Tame(es[i]) }

  lemma MidNeedsBothSides(s: Sim, e: Event, m: Model)
    requires e.BookSnapshot?
    ensures OnSnapshot(s, e, m).book.Mid().Some? <==> e.bids != [] && e.asks != []
  {
    BuiltNonEmpty(e.bids);
    BuiltNonEmpty(e.asks);
  }

  lemma BuiltNonEmpty(ls: seq<Level>)
    ensures FromLevels(ls) == [] <==> ls == []
  {
    if ls != [] {
      SnapshotMeaning(ls);
      assert LastQty(ls, ls[|ls| - 1].price).Some?;
      assert Get(FromLevels(ls), ls[|ls| - 1].price).Some?;
    }
  }

  /** Before the merge: quantities as the depth update read them. */
  lemma RefreshReads(ts: seq<Tracked>, ls: seq<Level>, m: Model)
    requires ValuedLevels(ls)
    ensures forall i :: 0 <= i < |ts| ==>
      var t := RefreshedAll(ts, ls, m)[i];
      && t.queue.front <= t.lastBookQty && t.queue.cum == 0.0 && t.lastBookQty >= 0.0
      && t.lastBookQty == FirstQty(ls, t.quote.price)
  {
    forall i | 0 <= i < |ts|
      ensures var t := RefreshedAll(ts, ls, m)[i];
        && t.queue.front <= t.lastBookQty && t.queue.cum == 0.0 && t.lastBookQty >= 0.0
        && t.lastBookQty == FirstQty(ls, t.quote.price)
    {
      FirstQtyValued(ls, ts[i].quote.price);
      DepthBounds(ts[i].queue, ts[i].lastBookQty, FirstQty(ls, ts[i].quote.price), m);
    }
  }

  lemma MergeAnchors(ts: seq<Tracked>, desired: seq<Quote>, ls: seq<Level>, m: Model)
    requires ValuedLevels(ls) && FirstWithinLast(ls)
    ensures AllAnchored(MergedAll(RefreshedAll(ts, ls, m), desired, FromLevels(ls)), FromLevels(ls))
  {
    var updated, levels := RefreshedAll(ts, ls, m), FromLevels(ls);
    RefreshReads(ts, ls, m);
    WithinIff(ls);
    forall i | 0 <= i < |desired| ensures Anchored(Merged(updated, desired[i], levels), levels) {
      BookReadsLast(ls, desired[i].price);
      assert FirstQty(ls, desired[i].price) <= BookQty(levels, desired[i].price);
      var prev := Find(updated, desired[i].price);
      if prev.Some? {
        var k :| 0 <= k < |updated| && updated[k] == prev.value;
      }
    }
  }

  lemma RefreshAnchors(ts: seq<Tracked>, ls: seq<Level>, m: Model)
    requires ValuedLevels(ls) && FirstIsLast(ls)
    ensures AllAnchored(RefreshedAll(ts, ls, m), FromLevels(ls))
  {
    RefreshReads(ts, ls, m);
    SameIff(ls);
  }

  lemma SnapshotAnchors(s: Sim, e: Event, m: Model)
    requires e.BookSnapshot? && Tame(e)
    ensures BookAnchored(OnSnapshot(s, e, m))
  {
    MidNeedsBothSides(s, e, m);
    if e.bids != [] && e.asks != [] {
      MergeAnchors(s.bids, SideQuotes(e.quotes, Buy), e.bids, m);
      MergeAnchors(s.asks, SideQuotes(e.quotes, Sell), e.asks, m);
    } else {
      RefreshAnchors(s.bids, e.bids, m);
      RefreshAnchors(s.asks, e.asks, m);
    }
  }

  lemma HitAnchored(t: Tracked, left: real, levels: seq<Level>)
    requires Anchored(t, levels)
    ensures Anchored(Hit(t, left), levels)
  {
  }

  lemma {:induction false} DispatchAnchors(
      ts: seq<Tracked>, n: nat, price: real, qty: real, taker: Side, id: nat, levels: seq<Level>)
    requires AllAnchored(ts, levels) && n <= |ts|
    ensures AllAnchored(Dispatched(ts, n, price, qty, taker, id).tracked, levels)
  {
    if n > 0 {
      DispatchAnchors(ts, n - 1, price, qty, taker, id, levels);
      var d := Dispatched(ts, n - 1, price, qty, taker, id);
      assert Anchored(d.tracked[n - 1], levels);
      HitAnchored(d.tracked[n - 1], d.left, levels);
    }
  }

  lemma AliveAnchored(ts: seq<Tracked>, levels: seq<Level>)
    requires AllAnchored(ts, levels)
    ensures AllAnchored(Alive(ts), levels)
  {
    forall i | 0 <= i < |Alive(ts)| ensures Anchored(Alive(ts)[i], levels) {
      AliveMembers(ts, Alive(ts)[i]);
      assert Alive(ts)[i] in ts;
    }
  }

  /** For every probability model and every run of tame snapshots: after each event every
      tracked quote's `lastBookQty` is the latest book's quantity at its price, and its front
      is no larger. */
  lemma {:induction false} RunAnchored(es: seq<Event>, m: Model)
    requires TameRun(es)
    ensures BookAnchored(After(es, m))
  {
    if es != [] {
      var e := es[|es| - 1];
      var s := After(es[..|es| - 1], m);
      RunAnchored(es[..|es| - 1], m);
      assert Tame(e);
      if e.BookSnapshot? {
        SnapshotAnchors(s, e, m);
      } else if e.taker.Buy? {
        DispatchAnchors(s.asks, |s.asks|, e.price, e.qty, Buy, |s.fills|, s.book.asks);
        AliveAnchored(Dispatched(s.asks, |s.asks|, e.price, e.qty, Buy, |s.fills|).tracked, s.book.asks);
      } else {
        DispatchAnchors(s.bids, |s.bids|, e.price, e.qty, Sell, |s.fills|, s.book.bids);
        AliveAnchored(Dispatched(s.bids, |s.bids|, e.price, e.qty, Sell, |s.fills|).tracked, s.book.bids);
      }
    }
  }

  // ---- and conversely ----

  /** A snapshot with one level of quantity `qty` at `price` on one side, quoted there. */
  function Prior(side: Side, price: real, qty: real): Event {
    if side.Buy? then
      BookSnapshot([Level(price, qty)], [Level(price + 1.0, 1.0)], 1, QuoteAt(side, price))
    else
      BookSnapshot([Level(price - 1.0, 1.0)], [Level(price, qty)], 1, QuoteAt(side, price))
  }

  function QuoteAt(side: Side, price: real): seq<QuotePair> {
    if side.Buy? then [QuotePair(Some(Quote(price, 2.0)), None)] else [QuotePair(None, Some(Quote(price, 2.0)))]
  }

  lemma QuotedThere(side: Side, price: real)
    ensures SideQuotes(QuoteAt(side, price), side) == [Quote(price, 2.0)]
  {
    assert QuoteAt(side, price)[1..] == [];
  }

  function TrackedOn(s: Sim, side: Side): seq<Tracked> { if side.Buy? then s.bids else s.asks }

  function LevelsOn(e: Event, side: Side): seq<Level>
    requires e.BookSnapshot?
  {
    if side.Buy? then e.bids else e.asks
  }

  function BookOn(s: Sim, side: Side): seq<Level> { if side.Buy? then s.book.bids else s.book.asks }

  lemma PriorTame(side: Side, price: real, qty: real)
    requires qty >= 0.0
    ensures Tame(Prior(side, price, qty))
  {
    var e := Prior(side, price, qty);
    DistinctIsFirstIsLast(e.bids);
    DistinctIsFirstIsLast(e.asks);
  }

  lemma PriorState(side: Side, price: real, qty: real, m: Model)
    requires qty >= 0.0
    ensures TrackedOn(After([Prior(side, price, qty)], m), side)
      == [Tracked(Quote(price, 2.0), Queue(qty, 0.0), qty)]
  {
    var e := Prior(side, price, qty);
    AfterSnoc([], e, m);
    assert [] + [e] == [e];
    QuotedThere(side, price);
    SingleLevel(Level(price, qty));
    MidNeedsBothSides(START, e, m);
    assert RefreshedAll([], e.bids, m) == [] && RefreshedAll([], e.asks, m) == [];
    var desired := SideQuotes(e.quotes, side);
    assert MergedAll([], desired, FromLevels(LevelsOn(e, side)))
      == [Merged([], desired[0], FromLevels(LevelsOn(e, side)))];
  }

  /** One quote at a price, recorded at the quantity the next snapshot lists first there:
      the update leaves it as it is, and a merge records the book's quantity. */
  lemma QuotedStep(s: Sim, e: Event, m: Model, side: Side, price: real)
    requires e.BookSnapshot? && e.quotes == QuoteAt(side, price)
    requires var qty := FirstQty(LevelsOn(e, side), price);
      TrackedOn(s, side) == [Tracked(Quote(price, 2.0), Queue(qty, 0.0), qty)]
    ensures var ls := LevelsOn(e, side);
      var qty := FirstQty(ls, price);
      var recorded := if e.bids != [] && e.asks != [] then BookQty(FromLevels(ls), price) else qty;
      TrackedOn(OnSnapshot(s, e, m), side) == [Tracked(Quote(price, 2.0), Queue(qty, 0.0), recorded)]
  {
    var ls := LevelsOn(e, side);
    var qty := FirstQty(ls, price);
    var t := Tracked(Quote(price, 2.0), Queue(qty, 0.0), qty);
    MidNeedsBothSides(s, e, m);
    QuotedThere(side, price);
    assert RefreshedAll([t], ls, m) == [t];
    assert MergedAll([t], [t.quote], FromLevels(ls)) == [Merged([t], t.quote, FromLevels(ls))];
  }

  /** What quoting at a badly repeated price does. */
  lemma RepeatUnanchors(e: Event, m: Model, side: Side, price: real)
    requires e.BookSnapshot? && Valued(e) && e.quotes == QuoteAt(side, price)
    requires var ls := LevelsOn(e, side);
      if e.bids != [] && e.asks != [] then FirstQty(ls, price) > BookQty(FromLevels(ls), price)
      else FirstQty(ls, price) != BookQty(FromLevels(ls), price)
    ensures var qty := FirstQty(LevelsOn(e, side), price);
      qty >= 0.0 && !BookAnchored(After([Prior(side, price, qty), e], m))
  {
    var qty := FirstQty(LevelsOn(e, side), price);
    FirstQtyValued(LevelsOn(e, side), price);
    PriorState(side, price, qty, m);
    AfterSnoc([Prior(side, price, qty)], e, m);
    assert [Prior(side, price, qty)] + [e] == [Prior(side, price, qty), e];
    var s := After([Prior(side, price, qty)], m);
    QuotedStep(s, e, m, side, price);
    var r := OnSnapshot(s, e, m);
    assert !Anchored(TrackedOn(r, side)[0], BookOn(r, side));
  }

  /** One more snapshot after a run. */
  ghost predicate AnchoredAfter(
      bids: seq<Level>, asks: seq<Level>, m: Model, es: seq<Event>, seqNo: nat, quotes: seq<QuotePair>)
  {
    BookAnchored(After(es + [BookSnapshot(bids, asks, seqNo, quotes)], m))
  }

  lemma BadPrice(bids: seq<Level>, asks: seq<Level>) returns (side: Side, price: real)
    requires !TameLevels(bids, asks)
    ensures var ls := if side.Buy? then bids else asks;
      if bids != [] && asks != [] then FirstQty(ls, price) > BookQty(FromLevels(ls), price)
      else FirstQty(ls, price) != BookQty(FromLevels(ls), price)
  {
    if bids != [] && asks != [] {
      side := if FirstWithinLast(bids) then Sell else Buy;
      var ls := if side.Buy? then bids else asks;
      WithinIff(ls);
      price :| FirstQty(ls, price) > BookQty(FromLevels(ls), price);
    } else {
      side := if FirstIsLast(bids) then Sell else Buy;
      var ls := if side.Buy? then bids else asks;
      SameIff(ls);
      price :| FirstQty(ls, price) != BookQty(FromLevels(ls), price);
    }
  }

  lemma UntameUnanchors(bids: seq<Level>, asks: seq<Level>, m: Model)
    requires ValuedLevels(bids) && ValuedLevels(asks) && !TameLevels(bids, asks)
    ensures exists es, seqNo, quotes :: TameRun(es) && !AnchoredAfter(bids, asks, m, es, seqNo, quotes)
  {
    var side, price := BadPrice(bids, asks);
    var e := BookSnapshot(bids, asks, 2, QuoteAt(side, price));
    var qty := FirstQty(LevelsOn(e, side), price);
    RepeatUnanchors(e, m, side, price);
    PriorTame(side, price, qty);
    var es := [Prior(side, price, qty)];
    assert es + [e] == [Prior(side, price, qty), e];
    assert TameRun(es) && !AnchoredAfter(bids, asks, m, es, 2, QuoteAt(side, price));
  }

  /** Exactly which snapshots are harmless: after every run of tame events, whatever is quoted,
      the fronts and recorded quantities match the book if and only if the snapshot is tame. */
  lemma SnapshotHarmlessIff(bids: seq<Level>, asks: seq<Level>, m: Model)
    requires ValuedLevels(bids) && ValuedLevels(asks)
    ensures (forall es, seqNo, quotes :: TameRun(es) ==> AnchoredAfter(bids, asks, m, es, seqNo, quotes))
      <==> TameLevels(bids, asks)
  {
    if TameLevels(bids, asks) {
      forall es, seqNo, quotes | TameRun(es) ensures AnchoredAfter(bids, asks, m, es, seqNo, quotes) {
        var e := BookSnapshot(bids, asks, seqNo, quotes);
        assert Tame(e);
        RunAnchored(es + [e], m);
      }
    } else {
      UntameUnanchors(bids, asks, m);
    }
  }

  /** One such input: five then one at a price already quoted leaves five ahead in a book
      of one. */
  lemma FallingRepeatBreaks(m: Model)
    ensures var bids := [Level(100.0, 5.0), Level(100.0, 1.0)];
      var e := BookSnapshot(bids, [Level(101.0, 1.0)], 2, QuoteAt(Buy, 100.0));
      !FirstWithinLast(bids) && !BookAnchored(After([Prior(Buy, 100.0, 5.0), e], m))
  {
    var bids := [Level(100.0, 5.0), Level(100.0, 1.0)];
    var e := BookSnapshot(bids, [Level(101.0, 1.0)], 2, QuoteAt(Buy, 100.0));
    assert bids[0].price == 100.0;
    BookReadsLast(bids, 100.0);
    RepeatUnanchors(e, m, Buy, 100.0);
  }

  // ---- prices that stay quoted ----

  lemma {:induction false} FindRefreshed(ts: seq<Tracked>, ls: seq<Level>, m: Model, price: real)
    ensures Find(RefreshedAll(ts, ls, m), price) ==
            match Find(ts, price) case None => None case Some(t) => Some(Refreshed(t, ls, m))
  {
    if ts != [] {
      assert RefreshedAll(ts, ls, m)[1..] == RefreshedAll(ts[1..], ls, m);
      FindRefreshed(ts[1..], ls, m, price);
    }
  }

  /** At a price that stays quoted the queue carries over: it is the old queue moved by
      exactly one depth update, to the first quantity the snapshot lists at its price. */
  lemma QueueCarriesOver(s: Sim, e: Event, m: Model, side: Side, t: Tracked, r: Tracked)
    requires e.BookSnapshot? && OnSnapshot(s, e, m).book.Mid().Some?
    requires Find(TrackedOn(s, side), t.quote.price) == Some(t)
    requires r in TrackedOn(OnSnapshot(s, e, m), side) && r.quote.price == t.quote.price
    ensures var ls := LevelsOn(e, side);
      && r.queue == DepthChanged(t.queue, t.lastBookQty, FirstQty(ls, t.quote.price), m)
      && r.lastBookQty == BookQty(FromLevels(ls), t.quote.price)
      && (DistinctPrices(ls) ==> FirstQty(ls, t.quote.price) == r.lastBookQty)
  {
    var ls := LevelsOn(e, side);
    FindRefreshed(TrackedOn(s, side), ls, m, t.quote.price);
    if DistinctPrices(ls) {
      DistinctIsFirstIsLast(ls);
      ReadsAt(ls, t.quote.price);
    }
  }
}
