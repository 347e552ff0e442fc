/** What the order book holds after every feed of updates, level by level. */
module BookLaws {
  import opened OrderBook
  import opened Trading
  import opened Wrappers

  /** The list gives this price this quantity, and mentions the price no later. */
  ghost predicate FinalMention(ls: seq<Level>, price: real, qty: real) {
    exists i :: 0 <= i < |ls| && ls[i] == Level(price, qty) && (forall j :: i < j < |ls| ==> ls[j].price != price)
  }

  predicate Unmentioned(ls: seq<Level>, price: real) {
    forall i :: 0 <= i < |ls| ==> ls[i].price != price
  }

  /** One side after a snapshot: the final mention of every price, and nothing else. */
  ghost predicate Replaced(ls: seq<Level>, after: seq<Level>) {
    && PricesAscend(after)
    && (forall price, qty :: Level(price, qty) in after <==> FinalMention(ls, price, qty))
  }

  /** One side after a delta: the final nonzero mentions, and what was not mentioned. */
  ghost predicate Amended(before: seq<Level>, ls: seq<Level>, after: seq<Level>) {
    && PricesAscend(after)
    && (forall price, qty :: Level(price, qty) in after <==>
          || (qty != 0.0 && FinalMention(ls, price, qty))
          || (Level(price, qty) in before && Unmentioned(ls, price)))
  }

  lemma {:induction false} GetIsMember(s: seq<Level>, price: real, qty: real)
    requires PricesAscend(s)
    ensures Get(s, price) == Some(qty) <==> Level(price, qty) in s
  {
    if s != [] {
      GetIsMember(s[1..], price, qty);
      assert s == [s[0]] + s[1..];
      if price == s[0].price { AbsentBelow(s[1..], price); }
    }
  }

  lemma {:induction false} LastQtyIsFinal(ls: seq<Level>, price: real, qty: real)
    ensures LastQty(ls, price) == Some(qty) <==> FinalMention(ls, price, qty)
    ensures LastQty(ls, price) == None <==> Unmentioned(ls, price)
  {
    if ls != [] {
      var front, last := ls[..|ls| - 1], ls[|ls| - 1];
      LastQtyIsFinal(front, price, qty);
      if last.price != price && FinalMention(front, price, qty) {
        var i :| 0 <= i < |front| && front[i] == Level(price, qty)
                 && (forall j :: i < j < |front| ==> front[j].price != price);
        assert ls[i] == Level(price, qty);
      }
      if last.price != price && FinalMention(ls, price, qty) {
        var i :| 0 <= i < |ls| && ls[i] == Level(price, qty) && (forall j :: i < j < |ls| ==> ls[j].price != price);
        assert front[i] == Level(price, qty);
      }
      if last.price != price && Unmentioned(front, price) {
        forall i | 0 <= i < |ls| ensures ls[i].price != price { assert i < |front| ==> ls[i] == front[i]; }
      }
      if Unmentioned(ls, price) {
        forall i | 0 <= i < |front| ensures front[i].price != price { assert ls[i] == front[i]; }
      }
    }
  }

  lemma FromLevelsReplace(ls: seq<Level>)
    ensures Replaced(ls, FromLevels(ls))
  {
    SnapshotMeaning(ls);
    forall price, qty ensures Level(price, qty) in FromLevels(ls) <==> FinalMention(ls, price, qty) {
      GetIsMember(FromLevels(ls), price, qty);
      LastQtyIsFinal(ls, price, qty);
    }
  }

  lemma PatchedAmends(s: seq<Level>, ls: seq<Level>)
    requires PricesAscend(s)
    ensures Amended(s, ls, Patched(s, ls))
  {
    DeltaMeaning(s, ls);
    forall price, qty
      ensures Level(price, qty) in Patched(s, ls) <==>
              || (qty != 0.0 && FinalMention(ls, price, qty))
              || (Level(price, qty) in s && Unmentioned(ls, price))
    {
      GetIsMember(Patched(s, ls), price, qty);
      GetIsMember(s, price, qty);
      LastQtyIsFinal(ls, price, qty);
    }
  }

  /** After every feed, one more update: a snapshot replaces both sides and the number; a delta
      numbered no later than the book changes nothing; any other delta amends each side by
      its own list and moves the number. */
  lemma UpdateMeaning(us: seq<Update>, u: Update)
    ensures var b, v := Feed(us), Feed(us + [u]);
      match u
      case Snapshot(newBids, newAsks, seqNo) =>
        v.sequence == seqNo && Replaced(newBids, v.bids) && Replaced(newAsks, v.asks)
      case Delta(newBids, newAsks, seqNo) =>
        if seqNo <= b.sequence then v == b
        else v.sequence == seqNo && Amended(b.bids, newBids, v.bids) && Amended(b.asks, newAsks, v.asks)
  {
    assert (us + [u])[..|us|] == us;
    FeedKeepsBook(us);
    FromLevelsReplace(u.newBids);
    FromLevelsReplace(u.newAsks);
    PatchedAmends(Feed(us).bids, u.newBids);
    PatchedAmends(Feed(us).asks, u.newAsks);
  }

  ghost predicate Highest(price: real, s: seq<Level>) {
    (exists l :: l in s && l.price == price) && (forall l :: l in s ==> l.price <= price)
  }

  ghost predicate Lowest(price: real, s: seq<Level>) {
    (exists l :: l in s && l.price == price) && (forall l :: l in s ==> l.price >= price)
  }

  /** After every feed the best prices are the highest bid and the lowest ask, and the mid is
      half their sum, each absent exactly when a side it needs is empty. */
  lemma TouchOfFeed(us: seq<Update>)
    ensures var b := Feed(us);
      && (b.BestBid() == None <==> b.bids == []) && (b.BestAsk() == None <==> b.asks == [])
      && (b.Mid() == None <==> b.bids == [] || b.asks == [])
      && (b.bids != [] ==> Highest(b.BestBid().value, b.bids))
      && (b.asks != [] ==> Lowest(b.BestAsk().value, b.asks))
      && (b.bids != [] && b.asks != [] ==> 2.0 * b.Mid().value == b.BestBid().value + b.BestAsk().value)
  {
    FeedKeepsBook(us);
    var b := Feed(us);
    if b.bids != [] {
      assert b.bids[|b.bids| - 1] in b.bids;
      forall l | l in b.bids ensures l.price <= b.BestBid().value {
        var i :| 0 <= i < |b.bids| && b.bids[i] == l;
      }
    }
    if b.asks != [] {
      assert b.asks[0] in b.asks;
      forall l | l in b.asks ensures l.price >= b.BestAsk().value {
        var i :| 0 <= i < |b.asks| && b.asks[i] == l;
      }
    }
  }

  /** A taker meets the levels of the other side, best price first: a buyer the asks from the
      lowest, a seller the bids from the highest. */
  lemma FacingBestFirst(us: seq<Update>, side: Side)
    ensures var b := Feed(us);
      var levels := b.Facing(side);
      && multiset(levels) == multiset(if side.Buy? then b.asks else b.bids)
      && (forall i, j :: 0 <= i < j < |levels| ==>
            if side.Buy? then levels[i].price < levels[j].price else levels[i].price > levels[j].price)
  {
    FeedKeepsBook(us);
    ReversedPermutes(Feed(us).bids);
  }

  lemma {:induction false} ReversedPermutes(s: seq<Level>)
    ensures multiset(Reversed(s)) == multiset(s)
  {
    if s == [] {
      assert Reversed(s) == [];
    } else {
      ReversedPermutes(s[1..]);
      assert Reversed(s) == Reversed(s[1..]) + [s[0]];
      assert s == [s[0]] + s[1..];
    }
  }
}
