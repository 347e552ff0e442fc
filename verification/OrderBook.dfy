/** The local order book: two sorted price maps, snapshot and delta updates, and the
    greedy sweep. Reals stand for decimals. */
module OrderBook {
  import opened Trading
  import opened Floats
  import opened Wrappers

  datatype Level = Level(price: real, qty: real)

  /** A `BTreeMap<Price, Qty>` is the sequence of its entries in key order. */
  ghost predicate PricesAscend(s: seq<Level>) {
    forall i, j :: 0 <= i < j < |s| ==> s[i].price < s[j].price
  }

  function Put(s: seq<Level>, price: real, qty: real): (r: seq<Level>)
    ensures r != []
  {
    if s == [] || price < s[0].price then [Level(price, qty)] + s
    else if price == s[0].price then [Level(price, qty)] + s[1..]
    else [s[0]] + Put(s[1..], price, qty)
  }

  function Remove(s: seq<Level>, price: real): seq<Level> {
    if s == [] || price < s[0].price then s
    else if price == s[0].price then s[1..]
    else [s[0]] + Remove(s[1..], price)
  }

  function Get(s: seq<Level>, price: real): Option<real> {
    if s == [] then None
    else if price == s[0].price then Some(s[0].qty)
    else Get(s[1..], price)
  }

  /** The map a snapshot's level list builds, inserting left to right. */
  function FromLevels(ls: seq<Level>): seq<Level> {
    if ls == [] then []
    else Put(FromLevels(ls[..|ls| - 1]), ls[|ls| - 1].price, ls[|ls| - 1].qty)
  }

  /** The map after a delta: a zero quantity removes the level. */
  function Patched(s: seq<Level>, ls: seq<Level>): seq<Level> {
    if ls == [] then s
    else
      var l := ls[|ls| - 1];
      var t := Patched(s, ls[..|ls| - 1]);
      if l.qty == 0.0 then Remove(t, l.price) else Put(t, l.price, l.qty)
  }

  function Reversed(s: seq<Level>): (r: seq<Level>)
    ensures |r| == |s|
    ensures forall i :: 0 <= i < |s| ==> r[i] == s[|s| - 1 - i]
  {
    seq(|s|, i requires 0 <= i < |s| => s[|s| - 1 - i])
  }

  datatype Book = Book(bids: seq<Level>, asks: seq<Level>, sequence: nat) {
    function BestBid(): Option<real> { if bids == [] then None else Some(bids[|bids| - 1].price) }

    function BestAsk(): Option<real> { if asks == [] then None else Some(asks[0].price) }

    function Mid(): Option<real> {
      if bids == [] || asks == [] then None
      else Some((bids[|bids| - 1].price + asks[0].price) / 2.0)
    }

    /** The levels a taker meets, best price first. */
    function Facing(side: Side): seq<Level> {
      if side.Buy? then asks else Reversed(bids)
    }

    ghost predicate Sorted() { PricesAscend(bids) && PricesAscend(asks) }

    ghost predicate NonNegative() {
      && (forall i :: 0 <= i < |bids| ==> bids[i].qty >= 0.0)
      && (forall i :: 0 <= i < |asks| ==> asks[i].qty >= 0.0)
    }
  }

  /** Outcome of walking levels with an amount still to fill. */
  datatype Walked = Walked(filled: real, notional: real, left: real)

  function Taken(l: Level, left: real): real { if l.qty >= left then left else l.qty }

  function Cash(qty: real, price: real): real { qty * price }

  function Take(take: real, price: real, rest: Walked): Walked {
    Walked(take + rest.filled, Cash(take, price) + rest.notional, rest.left)
  }

  function Walk(levels: seq<Level>, remaining: real): Walked {
    if levels == [] || remaining <= 0.0 then Walked(0.0, 0.0, remaining)
    else
      var take := Taken(levels[0], remaining);
      Take(take, levels[0].price, Walk(levels[1..], remaining - take))
  }

  /** A walk continued from amounts already accumulated. */
  ghost function Onto(filled: real, notional: real, rest: Walked): Walked {
    Walked(filled + rest.filled, notional + rest.notional, rest.left)
  }

  /** The walk in accumulator form, as the loop runs it. */
  ghost function WalkFrom(levels: seq<Level>, filled: real, notional: real, left: real): Walked {
    if levels == [] || left <= 0.0 then Walked(filled, notional, left)
    else
      var take := Taken(levels[0], left);
      WalkFrom(levels[1..], filled + take, notional + Cash(take, levels[0].price), left - take)
  }

  lemma {:induction false} WalkFromOnto(levels: seq<Level>, filled: real, notional: real, left: real)
    ensures WalkFrom(levels, filled, notional, left) == Onto(filled, notional, Walk(levels, left))
  {
    if levels != [] && left > 0.0 {
      var take := Taken(levels[0], left);
      WalkFromOnto(levels[1..], filled + take, notional + Cash(take, levels[0].price), left - take);
    }
  }

  datatype SweepResult = SweepResult(
    side: Side, targetQty: real, filledQty: real, notional: real, vwap: real,
    impactBps: real, fullyFilled: bool)

  function Average(w: Walked): real
    requires w.filled > 0.0
  {
    w.notional / w.filled
  }

  /** An amount in basis points of the mid. */
  function Bps(x: real, mid: real): real
    requires mid > 0.0
  {
    x / mid * 10000.0
  }

  function Signed(side: Side, vwap: real, mid: real): real {
    if side.Buy? then vwap - mid else mid - vwap
  }

  function Sweep(b: Book, side: Side, target: real): Option<SweepResult> {
    if target <= 0.0 || b.Mid().None? || b.Mid().value <= 0.0 then None
    else
      var mid := b.Mid().value;
      var w := Walk(b.Facing(side), target);
      if w.filled <= 0.0 then None
      else
        var vwap := Average(w);
        Some(SweepResult(side, target, w.filled, w.notional, vwap,
                         Max(Bps(Signed(side, vwap, mid), mid), 0.0), w.left <= 0.0))
  }

  datatype Update =
    | Snapshot(newBids: seq<Level>, newAsks: seq<Level>, seqNo: nat)
    | Delta(newBids: seq<Level>, newAsks: seq<Level>, seqNo: nat)

  function Updated(b: Book, u: Update): Book {
    match u
    case Snapshot(nb, na, s) => Book(FromLevels(nb), FromLevels(na), s)
    case Delta(nb, na, s) =>
      if s <= b.sequence then b else Book(Patched(b.bids, nb), Patched(b.asks, na), s)
  }

  /** The book after a whole feed. */
  function Feed(us: seq<Update>): Book {
    if us == [] then Book([], [], 0) else Updated(Feed(us[..|us| - 1]), us[|us| - 1])
  }

  class LocalOrderBook {
    var bids: seq<Level>
    var asks: seq<Level>
    var sequence: nat

    function State(): Book
      reads this
    {
      Book(bids, asks, sequence)
    }

    constructor ()
      ensures State() == Book([], [], 0)
    {
      bids, asks, sequence := [], [], 0;
    }

    method ApplySnapshot(newBids: seq<Level>, newAsks: seq<Level>, s: nat)
      modifies this
      ensures State() == Updated(old(State()), Snapshot(newBids, newAsks, s))
    {
      bids, asks := [], [];
      for i := 0 to |newBids|
        invariant bids == FromLevels(newBids[..i]) && asks == []
      {
        bids := Put(bids, newBids[i].price, newBids[i].qty);
        assert newBids[..i + 1][..i] == newBids[..i];
      }
      assert newBids[..|newBids|] == newBids;
      for i := 0 to |newAsks|
        invariant asks == FromLevels(newAsks[..i]) && bids == FromLevels(newBids)
      {
        asks := Put(asks, newAsks[i].price, newAsks[i].qty);
        assert newAsks[..i + 1][..i] == newAsks[..i];
      }
      assert newAsks[..|newAsks|] == newAsks;
      sequence := s;
    }

    method ApplyDelta(newBids: seq<Level>, newAsks: seq<Level>, s: nat)
      modifies this
      ensures State() == Updated(old(State()), Delta(newBids, newAsks, s))
    {
      if s <= sequence { return; }
      for i := 0 to |newBids|
        invariant bids == Patched(old(bids), newBids[..i])
        invariant asks == old(asks) && sequence == old(sequence)
      {
        var l := newBids[i];
        if l.qty == 0.0 { bids := Remove(bids, l.price); } else { bids := Put(bids, l.price, l.qty); }
        assert newBids[..i + 1][..i] == newBids[..i];
      }
      assert newBids[..|newBids|] == newBids;
      for i := 0 to |newAsks|
        invariant asks == Patched(old(asks), newAsks[..i])
        invariant bids == Patched(old(bids), newBids)
      {
        var l := newAsks[i];
        if l.qty == 0.0 { asks := Remove(asks, l.price); } else { asks := Put(asks, l.price, l.qty); }
        assert newAsks[..i + 1][..i] == newAsks[..i];
      }
      assert newAsks[..|newAsks|] == newAsks;
      sequence := s;
    }

    /** The loop of the sweep: take from each level until the target is met. */
    static method WalkLevels(levels: seq<Level>, targetQty: real)
      returns (filled: real, notional: real, remaining: real)
      ensures Walked(filled, notional, remaining) == Walk(levels, targetQty)
    {
      remaining, filled, notional := targetQty, 0.0, 0.0;
      var i := 0;
      while i < |levels| && remaining > 0.0
        invariant 0 <= i <= |levels|
        invariant WalkFrom(levels, 0.0, 0.0, targetQty) == WalkFrom(levels[i..], filled, notional, remaining)
      {
        assert levels[i..][0] == levels[i] && levels[i..][1..] == levels[i + 1..];
        var take := Taken(levels[i], remaining);
        filled := filled + take;
        notional := notional + Cash(take, levels[i].price);
        remaining := remaining - take;
        i := i + 1;
      }
      WalkFromOnto(levels, 0.0, 0.0, targetQty);
    }

    method SweepVwap(side: Side, targetQty: real) returns (r: Option<SweepResult>)
      ensures r == Sweep(State(), side, targetQty)
    {
      if targetQty <= 0.0 { return None; }
      var m := State().Mid();
      if m.None? { return None; }
      var mid := m.value;
      if mid <= 0.0 { return None; }
      var filled, notional, remaining := WalkLevels(State().Facing(side), targetQty);
      if filled <= 0.0 { return None; }
      var vwap := notional / filled;
      var signed := if side.Buy? then vwap - mid else mid - vwap;
      var bps := signed / mid * 10000.0;
      return Some(SweepResult(side, targetQty, filled, notional, vwap,
                              if bps >= 0.0 then bps else 0.0, remaining <= 0.0));
    }
  }

  // ---- the sorted map behaves like a map ----

  lemma {:induction false} PutLaws(s: seq<Level>, price: real, qty: real)
    requires PricesAscend(s)
    ensures PricesAscend(Put(s, price, qty))
    ensures forall p :: Get(Put(s, price, qty), p) == if p == price then Some(qty) else Get(s, p)
    ensures forall l :: l in Put(s, price, qty) ==> l == Level(price, qty) || l in s
  {
    if s != [] && price > s[0].price {
      var t := Put(s[1..], price, qty);
      PutLaws(s[1..], price, qty);
      forall j | 0 <= j < |t| ensures s[0].price < t[j].price {
        assert t[j] in t;
      }
    } else if s != [] && price == s[0].price {
      assert ([Level(price, qty)] + s[1..])[1..] == s[1..];
    } else {
      assert ([Level(price, qty)] + s)[1..] == s;
    }
  }

  lemma {:induction false} AbsentBelow(s: seq<Level>, price: real)
    requires forall i :: 0 <= i < |s| ==> price < s[i].price
    ensures Get(s, price) == None
  {
    if s != [] { AbsentBelow(s[1..], price); }
  }

  lemma {:induction false} RemoveLaws(s: seq<Level>, price: real)
    requires PricesAscend(s)
    ensures PricesAscend(Remove(s, price))
    ensures forall p :: Get(Remove(s, price), p) == if p == price then None else Get(s, p)
    ensures forall l :: l in Remove(s, price) ==> l in s
  {
    if s != [] && price > s[0].price {
      var t := Remove(s[1..], price);
      RemoveLaws(s[1..], price);
      forall j | 0 <= j < |t| ensures s[0].price < t[j].price {
        assert t[j] in t;
      }
    } else if s != [] && price == s[0].price {
      AbsentBelow(s[1..], price);
    } else {
      AbsentBelow(s, price);
    }
  }

  /** The quantity an update list gives a price: that of its last mention. */
  function LastQty(ls: seq<Level>, price: real): Option<real> {
    if ls == [] then None
    else if ls[|ls| - 1].price == price then Some(ls[|ls| - 1].qty)
    else LastQty(ls[..|ls| - 1], price)
  }

  /** A snapshot builds a sorted map in which the last mention of a price wins. */
  lemma {:induction false} SnapshotMeaning(ls: seq<Level>)
    ensures PricesAscend(FromLevels(ls))
    ensures forall p :: Get(FromLevels(ls), p) == LastQty(ls, p)
    ensures forall l :: l in FromLevels(ls) ==> l in ls
  {
    if ls != [] {
      var front, l := ls[..|ls| - 1], ls[|ls| - 1];
      SnapshotMeaning(front);
      PutLaws(FromLevels(front), l.price, l.qty);
    }
  }

  /** A delta overrides exactly the prices it mentions; zero means absent afterwards. */
  lemma {:induction false} DeltaMeaning(s: seq<Level>, ls: seq<Level>)
    requires PricesAscend(s)
    ensures PricesAscend(Patched(s, ls))
    ensures forall p :: Get(Patched(s, ls), p) ==
                        match LastQty(ls, p) { case None => Get(s, p)
                                               case Some(q) => if q == 0.0 then None else Some(q) }
    ensures forall l :: l in Patched(s, ls) ==> l in s || l in ls
  {
    if ls != [] {
      var front, l := ls[..|ls| - 1], ls[|ls| - 1];
      DeltaMeaning(s, front);
      PutLaws(Patched(s, front), l.price, l.qty);
      RemoveLaws(Patched(s, front), l.price);
    }
  }

  /** Two sorted maps with the same lookups are the same map. */
  lemma {:induction false} SortedExtensional(s: seq<Level>, t: seq<Level>)
    requires PricesAscend(s) && PricesAscend(t)
    requires forall p :: Get(s, p) == Get(t, p)
    ensures s == t
  {
    if s == [] {
      var p := (t + [Level(0.0, 0.0)])[0].price;
      assert Get(s, p) == Get(t, p);
    } else {
      assert Get(s, s[0].price) == Get(t, s[0].price);
      assert t != [];
      assert Get(t, t[0].price) == Get(s, t[0].price);
      if s[0].price < t[0].price { AbsentBelow(t, s[0].price); }
      if t[0].price < s[0].price { AbsentBelow(s, t[0].price); }
      forall p ensures Get(s[1..], p) == Get(t[1..], p) {
        if p == s[0].price { AbsentBelow(s[1..], p); AbsentBelow(t[1..], p); }
        assert Get(s, p) == Get(t, p);
      }
      SortedExtensional(s[1..], t[1..]);
    }
  }

  /** A snapshot is the same as a delta onto an empty book when it carries no zero levels. */
  lemma SnapshotIsDelta(ls: seq<Level>)
    requires forall l :: l in ls ==> l.qty != 0.0
    ensures FromLevels(ls) == Patched([], ls)
  {
    SnapshotMeaning(ls);
    DeltaMeaning([], ls);
    forall p ensures Get(FromLevels(ls), p) == Get(Patched([], ls), p) {
      LastQtyMentioned(ls, p);
    }
    SortedExtensional(FromLevels(ls), Patched([], ls));
  }

  lemma {:induction false} LastQtyMentioned(ls: seq<Level>, p: real)
    ensures LastQty(ls, p).Some? ==> Level(p, LastQty(ls, p).value) in ls
    ensures (exists q :: Level(p, q) in ls) ==> LastQty(ls, p).Some?
  {
    if ls != [] {
      var front, l := ls[..|ls| - 1], ls[|ls| - 1];
      assert ls == front + [l];
      LastQtyMentioned(front, p);
      if q :| Level(p, q) in ls && l.price != p { assert Level(p, q) in front; }
    }
  }

  ghost predicate NonNegativeUpdate(u: Update) {
    && (forall l :: l in u.newBids ==> l.qty >= 0.0)
    && (forall l :: l in u.newAsks ==> l.qty >= 0.0)
  }

  /** Every feed leaves both sides sorted, and free of negative levels if it carried none. */
  lemma {:induction false} FeedKeepsBook(us: seq<Update>)
    ensures Feed(us).Sorted()
    ensures (forall u :: u in us ==> NonNegativeUpdate(u)) ==> Feed(us).NonNegative()
  {
    if us != [] {
      var front, u := us[..|us| - 1], us[|us| - 1];
      var b := Feed(front);
      FeedKeepsBook(front);
      SnapshotMeaning(u.newBids);
      SnapshotMeaning(u.newAsks);
      DeltaMeaning(b.bids, u.newBids);
      DeltaMeaning(b.asks, u.newAsks);
      if forall v :: v in us ==> NonNegativeUpdate(v) {
        assert NonNegativeUpdate(u);
        LevelsNonNegative(Feed(us).bids, b.bids, u.newBids);
        LevelsNonNegative(Feed(us).asks, b.asks, u.newAsks);
      }
    }
  }

  lemma LevelsNonNegative(r: seq<Level>, s: seq<Level>, ls: seq<Level>)
    requires forall l :: l in r ==> l in s || l in ls
    requires forall i :: 0 <= i < |s| ==> s[i].qty >= 0.0
    requires forall l :: l in ls ==> l.qty >= 0.0
    ensures forall i :: 0 <= i < |r| ==> r[i].qty >= 0.0
  {
    forall i | 0 <= i < |r| ensures r[i].qty >= 0.0 {
      assert r[i] in r;
    }
  }
}
