/** The sample server's order book: a mutable engine that inserts an order first and then crosses the book. */
module ReferenceEngine {
  import opened MarketTypes
  import opened RankedBook
  import opened BookLaws
  import opened PriceLevels
  import opened GoldenBook
  import opened ReferenceSpec

  /** What never changes about an order while the book holds it. */
  datatype Entry = Entry(side: Side, price: int, otype: OrderType)

  function Index(orders: map<string, Entry>): map<string, Ref> {
    map id | id in orders :: Ref(orders[id].side, orders[id].price)
  }

  predicate NoneToKill(orders: map<string, Entry>) {
    forall id :: id in orders ==> !orders[id].otype.FillAndKill?
  }

  lemma IndexWithout(orders: map<string, Entry>, gone: set<string>)
    ensures Index(orders - gone) == Index(orders) - gone
  {
  }

  lemma IndexWith(orders: map<string, Entry>, id: string, e: Entry)
    ensures Index(orders[id := e]) == Index(orders)[id := Ref(e.side, e.price)]
  {
  }

  // ----- crossing, trade by trade -----

  function Continue(ts: seq<CrossTrade>, c: Crossed): Crossed {
    Crossed(ts + c.trades, c.bids, c.asks)
  }

  function FilledId(r: Resting, q: int): set<string> {
    if q == r.qty then {r.id} else {}
  }

  /** The ids `Cross` fills and drops. */
  function CrossGone(bids: seq<Resting>, asks: seq<Resting>): set<string>
    decreases |bids| + |asks|
  {
    if bids == [] || asks == [] || bids[0].price < asks[0].price then {}
    else
      var q := Min(bids[0].qty, asks[0].qty);
      FilledId(bids[0], q) + FilledId(asks[0], q) + CrossGone(Reduced(bids[0], q) + bids[1..], Reduced(asks[0], q) + asks[1..])
  }

  lemma OneId(r: Resting, qty: int)
    ensures Ids([]) == {} && Ids([r.(qty := qty)]) == {r.id}
  {
    assert [r.(qty := qty)][0] in [r.(qty := qty)];
  }

  lemma TakeCons(r: Resting, rs: seq<Resting>, n: nat)
    requires 0 < n <= |rs| + 1
    ensures ([r] + rs)[..n] == [r] + rs[..n - 1]
  {
  }

  lemma ConsumedStep(before: seq<Resting>, q: int, after: seq<Resting>)
    requires before != [] && |after| <= |Reduced(before[0], q) + before[1..]|
    ensures Consumed(before, after) == FilledId(before[0], q) + Consumed(Reduced(before[0], q) + before[1..], after)
  {
    hide Ids;
    var next := Reduced(before[0], q) + before[1..];
    var n := |next| - |after|;
    OneId(before[0], before[0].qty);
    OneId(before[0], before[0].qty - q);
    if q == before[0].qty {
      assert before[..n + 1] == [before[0]] + next[..n];
      IdsConcat([before[0]], next[..n]);
    } else if 0 < n {
      TakeCons(before[0], before[1..], n);
      TakeCons(next[0], before[1..], n);
      assert before == [before[0]] + before[1..] && next == [next[0]] + before[1..];
      IdsConcat([before[0]], before[1..][..n - 1]);
      IdsConcat([next[0]], before[1..][..n - 1]);
    }
  }

  /** The dropped ids are the ones missing from the front of the two sides. */
  lemma {:induction false} GoneIsConsumed(bids: seq<Resting>, asks: seq<Resting>)
    ensures var c := Cross(bids, asks);
      && |c.bids| <= |bids| && |c.asks| <= |asks|
      && CrossGone(bids, asks) == Consumed(bids, c.bids) + Consumed(asks, c.asks)
    decreases |bids| + |asks|
  {
    hide Consumed;
    if bids == [] || asks == [] || bids[0].price < asks[0].price {
      ConsumedNone(bids);
      ConsumedNone(asks);
    } else {
      var q := Min(bids[0].qty, asks[0].qty);
      var nextBids, nextAsks := Reduced(bids[0], q) + bids[1..], Reduced(asks[0], q) + asks[1..];
      GoneIsConsumed(nextBids, nextAsks);
      var c := Cross(nextBids, nextAsks);
      ConsumedStep(bids, q, c.bids);
      ConsumedStep(asks, q, c.asks);
    }
  }

  /** Having made `trades`, the engine has the rest of the same crossing still to do. */
  ghost predicate Ahead(bids0: seq<Resting>, asks0: seq<Resting>, orders0: map<string, Entry>, trades: seq<CrossTrade>,
                        bids: seq<Resting>, asks: seq<Resting>, orders: map<string, Entry>)
  {
    && Cross(bids0, asks0) == Continue(trades, Cross(bids, asks))
    && orders0 - CrossGone(bids0, asks0) == orders - CrossGone(bids, asks)
  }

  lemma AheadStart(bids: seq<Resting>, asks: seq<Resting>, orders: map<string, Entry>)
    ensures Ahead(bids, asks, orders, [], bids, asks, orders)
  {
    assert [] + Cross(bids, asks).trades == Cross(bids, asks).trades;
  }

  lemma AheadJoins(bids0: seq<Resting>, asks0: seq<Resting>, orders0: map<string, Entry>, ts: seq<CrossTrade>,
                   bids1: seq<Resting>, asks1: seq<Resting>, orders1: map<string, Entry>, us: seq<CrossTrade>,
                   bids2: seq<Resting>, asks2: seq<Resting>, orders2: map<string, Entry>)
    requires Ahead(bids0, asks0, orders0, ts, bids1, asks1, orders1)
    requires Ahead(bids1, asks1, orders1, us, bids2, asks2, orders2)
    ensures Ahead(bids0, asks0, orders0, ts + us, bids2, asks2, orders2)
  {
    hide Cross, CrossGone;
    var rest := Cross(bids2, asks2).trades;
    assert ts + (us + rest) == ts + us + rest;
  }

  lemma OneTrade(bids: seq<Resting>, asks: seq<Resting>, orders: map<string, Entry>)
    requires bids != [] && asks != [] && asks[0].price <= bids[0].price
    ensures var q := Min(bids[0].qty, asks[0].qty);
      Ahead(bids, asks, orders, [CrossTrade(bids[0].id, bids[0].price, asks[0].id, asks[0].price, q)],
            Reduced(bids[0], q) + bids[1..], Reduced(asks[0], q) + asks[1..], orders - FilledId(bids[0], q) - FilledId(asks[0], q))
  {
    var q := Min(bids[0].qty, asks[0].qty);
    MinusThrice(orders, FilledId(bids[0], q), FilledId(asks[0], q),
                CrossGone(Reduced(bids[0], q) + bids[1..], Reduced(asks[0], q) + asks[1..]));
  }

  lemma MinusThrice(orders: map<string, Entry>, a: set<string>, b: set<string>, c: set<string>)
    ensures orders - (a + b + c) == orders - a - b - c
  {
  }

  /** A side whose best level holds `os`, in front of everything worse. */
  function Side0(price: int, os: seq<RestingOrder>, rest: seq<Resting>): seq<Resting> {
    Tag(price, os) + rest
  }

  lemma LevelTrade(bp: int, bs: seq<RestingOrder>, bidRest: seq<Resting>, ap: int, ks: seq<RestingOrder>,
                   askRest: seq<Resting>,
                   orders: map<string, Entry>)
    requires bs != [] && ks != [] && ap <= bp
    ensures var q := Min(bs[0].qty, ks[0].qty);
      var left := if bs[0].qty == q then orders - {bs[0].botId} else orders;
      var left := if ks[0].qty == q then left - {ks[0].botId} else left;
      Ahead(Side0(bp, bs, bidRest), Side0(ap, ks, askRest), orders, [CrossTrade(bs[0].botId, bp, ks[0].botId, ap, q)],
            Side0(bp, NextOrders(bs, q), bidRest), Side0(ap, NextOrders(ks, q), askRest), left)
  {
    hide Ahead, NextOrders;
    var q := Min(bs[0].qty, ks[0].qty);
    TagNext(PriceLevel(bp, bs), q, bidRest);
    TagNext(PriceLevel(ap, ks), q, askRest);
    OneTrade(Side0(bp, bs, bidRest), Side0(ap, ks, askRest), orders);
    assert forall m: map<string, Entry> :: m - {} == m;
  }

  lemma NextNoneNegative(os: seq<RestingOrder>, q: int)
    requires os != [] && NoneNegative(os) && q <= os[0].qty
    ensures NoneNegative(NextOrders(os, q))
    ensures |NextOrders(os, q)| == |os| - (if q == os[0].qty then 1 else 0)
  {
  }

  /** Replacing the orders of the best level changes the side in front only. */
  lemma BestLevel(ls: seq<PriceLevel>, s: Side, os: seq<RestingOrder>)
    requires LevelsOk(ls, s) && ls != [] && NoneNegative(os)
    ensures ls[0].orders != [] && NoneNegative(ls[0].orders)
    ensures Flatten(ls) == Side0(ls[0].price, ls[0].orders, Flatten(ls[1..]))
    ensures LevelsOk(Edit(ls, 0, os), s) && Flatten(Edit(ls, 0, os)) == Side0(ls[0].price, os, Flatten(ls[1..]))
    ensures |Flatten(Edit(ls, 0, os))| == |Flatten(ls)| - |ls[0].orders| + |os|
  {
    EditOk(ls, s, 0, os);
    EditFlat(ls, 0, os);
    assert Flatten(ls[..0]) == [];
    TagShape(ls[0].price, os);
    TagShape(ls[0].price, ls[0].orders);
  }

  lemma CrossingOver(bids: seq<PriceLevel>, asks: seq<PriceLevel>, orders: map<string, Entry>)
    requires LevelsOk(bids, Buy) && LevelsOk(asks, Sell)
    requires bids == [] || asks == [] || bids[0].price < asks[0].price
    ensures Cross(Flatten(bids), Flatten(asks)) == Crossed([], Flatten(bids), Flatten(asks))
    ensures CrossGone(Flatten(bids), Flatten(asks)) == {}
  {
    LevelsInOrder(bids, Buy);
    LevelsInOrder(asks, Sell);
  }

  // ----- which order a fill-and-kill remainder is -----

  predicate ToKill(orders: map<string, Entry>, id: string) {
    id in orders && orders[id].otype.FillAndKill?
  }

  predicate FrontToKill(orders: map<string, Entry>, rs: seq<Resting>) {
    rs != [] && ToKill(orders, rs[0].id)
  }

  /** The two sides may be named in either order. */
  lemma IndexedSwap(live: map<string, Ref>, own: seq<Resting>, s: Side, other: seq<Resting>)
    requires Indexed(live, own, s, other)
    ensures Indexed(live, other, Opposite(s), own)
  {
    hide DistinctIds, LiveAt, Ids;
  }

  /** Trading part or all of the first order of a side keeps the index exact. */
  lemma TradedHead(live: map<string, Ref>, own: seq<Resting>, s: Side, other: seq<Resting>, q: int)
    requires Indexed(live, own, s, other) && own != []
    ensures Indexed(live - FilledId(own[0], q), Reduced(own[0], q) + own[1..], s, other)
  {
    hide Indexed;
    var own' := Reduced(own[0], q) + own[1..];
    if q == own[0].qty {
      assert own' == own[1..];
      SweptLive(live, own, s, other, 1, own');
      assert own == [own[0]] + own[1..];
      ConsumedHead(own[0], own[1..]);
    } else {
      assert own' == [own[0].(qty := own[0].qty - q)] + own[0 + 1..];
      SweptLive(live, own, s, other, 0, own');
      assert own[..0] == [];
      OneId(own[0], 0);
    }
  }

  /** Crossing keeps the index exact once the filled orders have left it. */
  lemma {:induction false} CrossKeepsIndexed(live: map<string, Ref>, bids: seq<Resting>, asks: seq<Resting>)
    requires Indexed(live, bids, Buy, asks)
    ensures var c := Cross(bids, asks); Indexed(live - CrossGone(bids, asks), c.bids, Buy, c.asks)
    decreases |bids| + |asks|
  {
    hide Indexed, FilledId, Reduced;
    if bids == [] || asks == [] || bids[0].price < asks[0].price {
      assert live - {} == live;
    } else {
      var q := Min(bids[0].qty, asks[0].qty);
      var live1 := live - FilledId(bids[0], q);
      var bids', asks' := Reduced(bids[0], q) + bids[1..], Reduced(asks[0], q) + asks[1..];
      TradedHead(live, bids, Buy, asks, q);
      IndexedSwap(live1, bids', Buy, asks);
      TradedHead(live1, asks, Sell, bids', q);
      IndexedSwap(live1 - FilledId(asks[0], q), asks', Sell, bids');
      Shorter(bids[0], asks[0]);
      CrossKeepsIndexed(live1 - FilledId(asks[0], q), bids', asks');
      assert live - (FilledId(bids[0], q) + FilledId(asks[0], q) + CrossGone(bids', asks'))
        == live1 - FilledId(asks[0], q) - CrossGone(bids', asks');
    }
  }

  /** At least one of two orders is filled when they trade. */
  lemma Shorter(bid: Resting, ask: Resting)
    ensures var q := Min(bid.qty, ask.qty); |Reduced(bid, q)| + |Reduced(ask, q)| < 2
  {
  }

  lemma {:induction false} CrossEnds(bids: seq<Resting>, asks: seq<Resting>)
    ensures var c := Cross(bids, asks); c.bids != [] && c.asks != [] ==> c.bids[0].price < c.asks[0].price
    decreases |bids| + |asks|
  {
    if !(bids == [] || asks == [] || bids[0].price < asks[0].price) {
      var q := Min(bids[0].qty, asks[0].qty);
      CrossEnds(Reduced(bids[0], q) + bids[1..], Reduced(asks[0], q) + asks[1..]);
    }
  }

  /** What stays of a side is some first order, perhaps reduced, and orders that stood behind the old first one. */
  predicate StaysOf(before: seq<Resting>, after: seq<Resting>) {
    after != [] ==> before != [] && after[0].id in Ids(before) && forall x :: x in after[1..] ==> x in before[1..]
  }

  lemma StaysBehind(r: Resting, q: int, rest: seq<Resting>, after: seq<Resting>)
    requires StaysOf(Reduced(r, q) + rest, after)
    ensures StaysOf([r] + rest, after)
  {
    var next := Reduced(r, q) + rest;
    assert ([r] + rest)[1..] == rest;
    if after != [] {
      var x :| x in next && x.id == after[0].id;
      assert x in rest || x.id == r.id;
      assert r in [r] + rest && forall y :: y in rest ==> y in [r] + rest;
      if q == r.qty {
        assert next == rest;
        assert forall y :: y in rest[1..] ==> y in rest;
      } else {
        assert next[1..] == rest;
      }
    }
  }

  lemma {:induction false} CrossStays(bids: seq<Resting>, asks: seq<Resting>)
    ensures var c := Cross(bids, asks); StaysOf(bids, c.bids) && StaysOf(asks, c.asks)
    decreases |bids| + |asks|
  {
    hide StaysOf, Reduced;
    if bids == [] || asks == [] || bids[0].price < asks[0].price {
      StaysItself(bids);
      StaysItself(asks);
    } else {
      var q := Min(bids[0].qty, asks[0].qty);
      Shorter(bids[0], asks[0]);
      var bids', asks' := Reduced(bids[0], q) + bids[1..], Reduced(asks[0], q) + asks[1..];
      CrossStays(bids', asks');
      assert bids == [bids[0]] + bids[1..] && asks == [asks[0]] + asks[1..];
      StaysBehind(bids[0], q, bids[1..], Cross(bids', asks').bids);
      StaysBehind(asks[0], q, asks[1..], Cross(bids', asks').asks);
    }
  }

  lemma StaysItself(rs: seq<Resting>)
    ensures StaysOf(rs, rs)
  {
    assert rs != [] ==> rs[0] in rs;
  }

  /** Insert-then-cross keeps the book uncrossed and its index exact, whatever the quantity. */
  lemma InsertThenCrossKeepsBook(b: Book, id: string, s: Side, price: int, qty: int)
    requires LiveExact(b) && id !in b.live
    ensures var a := InsertThenCross(b, id, s, price, qty).book; Uncrossed(a) && LiveExact(a)
  {
    hide Insert, Cross, CrossGone, Consumed, Indexed, InsertThenCross;
    var r := Resting(id, price, qty);
    var own, opp := Insert(b.Of(s), s, r), b.Of(Opposite(s));
    var bids, asks := BuySide(s, own, opp), SellSide(s, own, opp);
    var live := b.live[id := Ref(s, price)];
    AddedParts(b, id, s, price, qty);
    SidesIndexed(b, s);
    RestLive(b.live, b.Of(s), s, opp, r);
    if s.Sell? {
      IndexedSwap(live, own, s, opp);
    }
    CrossKeepsIndexed(live, bids, asks);
    CrossEnds(bids, asks);
    LiveAfter(b, id, s, price, qty);
  }

  lemma LiveAfter(b: Book, id: string, s: Side, price: int, qty: int)
    ensures var own, opp := Insert(b.Of(s), s, Resting(id, price, qty)), b.Of(Opposite(s));
      InsertThenCross(b, id, s, price, qty).book.live
        == b.live[id := Ref(s, price)] - CrossGone(BuySide(s, own, opp), SellSide(s, own, opp))
  {
    hide Insert, Cross, CrossGone, Consumed;
    var own, opp := Insert(b.Of(s), s, Resting(id, price, qty)), b.Of(Opposite(s));
    var bids, asks := BuySide(s, own, opp), SellSide(s, own, opp);
    var c := Cross(bids, asks);
    GoneIsConsumed(bids, asks);
    var live := b.live[id := Ref(s, price)];
    MinusUnion(live, Consumed(bids, c.bids), Consumed(asks, c.asks));
    MinusUnion(live, Consumed(asks, c.asks), Consumed(bids, c.bids));
  }

  /** An order that crosses the book and is not filled leads its own side, and only there. */
  lemma NewcomerAfter(b: Book, id: string, s: Side, limit: int, qty: int)
    requires Uncrossed(b) && LiveExact(b) && id !in b.live
    requires b.Of(Opposite(s)) != [] && Crosses(s, false, limit, b.Of(Opposite(s))[0].price)
    ensures var a := InsertThenCross(b, id, s, limit, qty).book;
      && (id in a.live <==> a.Of(s) != [] && a.Of(s)[0].id == id)
      && (a.Of(Opposite(s)) != [] ==> a.Of(Opposite(s))[0].id != id)
  {
    hide InsertThenCross, Insert, Cross, DistinctIds, LiveAt, Uncrossed;
    var a := InsertThenCross(b, id, s, limit, qty).book;
    var r := Resting(id, limit, qty);
    InsertThenCrossKeepsBook(b, id, s, limit, qty);
    AddedParts(b, id, s, limit, qty);
    NewcomerLeads(b, id, s, limit, qty);
    var own, opp := [r] + b.Of(s), b.Of(Opposite(s));
    CrossStays(BuySide(s, own, opp), SellSide(s, own, opp));
    assert own[1..] == b.Of(s);
    NotAmong(b, s, id);
    NotAmong(b, Opposite(s), id);
    LiveSides(a, s, id);
    assert forall x :: x in a.Of(s) ==> x == a.Of(s)[0] || x in a.Of(s)[1..];
    assert forall x :: x in a.Of(Opposite(s)) ==> x == a.Of(Opposite(s))[0] || x in a.Of(Opposite(s))[1..];
    assert forall x :: x in opp[1..] ==> x in opp;
  }

  lemma NotAmong(b: Book, s: Side, id: string)
    requires LiveExact(b) && id !in b.live
    ensures id !in Ids(b.Of(s)) && forall x :: x in b.Of(s) ==> x.id != id
  {
    hide DistinctIds, LiveAt;
    assert forall x :: x in b.Of(s) ==> x.id in Ids(b.Of(s));
  }

  lemma LiveSides(b: Book, s: Side, id: string)
    requires LiveExact(b)
    ensures id in b.live <==> (exists x :: x in b.Of(s) && x.id == id) || (exists x :: x in b.Of(Opposite(s)) && x.id == id)
  {
    hide DistinctIds, LiveAt;
    assert id in b.live <==> id in Ids(b.bids) || id in Ids(b.asks);
  }

  lemma CrossingDone(bids0: seq<Resting>, asks0: seq<Resting>, orders0: map<string, Entry>, trades: seq<CrossTrade>,
                     bids: seq<Resting>, asks: seq<Resting>, orders: map<string, Entry>)
    requires Ahead(bids0, asks0, orders0, trades, bids, asks, orders)
    requires Cross(bids, asks) == Crossed([], bids, asks) && CrossGone(bids, asks) == {}
    ensures Cross(bids0, asks0) == Crossed(trades, bids, asks) && orders == orders0 - CrossGone(bids0, asks0)
  {
    hide Cross, CrossGone;
    assert trades + [] == trades && orders - {} == orders;
  }

  function BuySide(s: Side, own: seq<Resting>, opp: seq<Resting>): seq<Resting> {
    if s.Buy? then own else opp
  }

  function SellSide(s: Side, own: seq<Resting>, opp: seq<Resting>): seq<Resting> {
    if s.Buy? then opp else own
  }

  /** The index loses what the crossing fills, the newcomer among it. */
  lemma IndexAfter(b: Book, held: map<string, Entry>, id: string, s: Side, price: int, qty: int, kind: OrderType)
    requires b.live == Index(held)
    ensures var own, opp := Insert(b.Of(s), s, Resting(id, price, qty)), b.Of(Opposite(s));
      Index(held[id := Entry(s, price, kind)] - CrossGone(BuySide(s, own, opp), SellSide(s, own, opp)))
        == InsertThenCross(b, id, s, price, qty).book.live
  {
    hide InsertThenCross, CrossGone, Insert, Index;
    var own, opp := Insert(b.Of(s), s, Resting(id, price, qty)), b.Of(Opposite(s));
    var e := Entry(s, price, kind);
    IndexWithout(held[id := e], CrossGone(BuySide(s, own, opp), SellSide(s, own, opp)));
    IndexWith(held, id, e);
    LiveAfter(b, id, s, price, qty);
  }

  lemma MinusUnion(live: map<string, Ref>, a: set<string>, c: set<string>)
    ensures live - (a + c) == live - a - c
    ensures live - (c + a) == live - a - c
  {
  }

  lemma AddedParts(b: Book, id: string, s: Side, price: int, qty: int)
    ensures var own, opp := Insert(b.Of(s), s, Resting(id, price, qty)), b.Of(Opposite(s));
      var c := Cross(BuySide(s, own, opp), SellSide(s, own, opp));
      var a := InsertThenCross(b, id, s, price, qty);
      a.trades == c.trades && a.book.bids == c.bids && a.book.asks == c.asks && !a.stuck
  {
  }

  /** Only a newcomer can be a fill-and-kill order, and then it leads its side exactly when it still rests. */
  lemma KillsOnlyNewcomer(b: Book, held: map<string, Entry>, orders: map<string, Entry>, id: string, s: Side,
                        price: int,
                          qty: int, kind: OrderType)
    requires Uncrossed(b) && LiveExact(b) && id !in b.live && NoneToKill(held)
    requires kind.FillAndKill? ==> b.Of(Opposite(s)) != [] && Crosses(s, false, price, b.Of(Opposite(s))[0].price)
    requires forall i :: i in orders ==> (i == id && orders[i].otype == kind) || (i in held && orders[i] == held[i])
    requires Index(held) == b.live && Index(orders) == InsertThenCross(b, id, s, price, qty).book.live
    ensures var a := InsertThenCross(b, id, s, price, qty).book;
      var leads := kind.FillAndKill? && a.Of(s) != [] && a.Of(s)[0].id == id;
      && (FrontToKill(orders, a.bids) || FrontToKill(orders, a.asks) <==> leads)
      && (!leads ==> NoneToKill(orders))
  {
    hide InsertThenCross, LiveExact, Uncrossed;
    var a := InsertThenCross(b, id, s, price, qty).book;
    assert orders.Keys == a.live.Keys && id !in held;
    if kind.FillAndKill? {
      NewcomerAfter(b, id, s, price, qty);
    }
  }

  lemma CancelKeepsUncrossed(b: Book, id: string)
    requires InOrder(b.bids, Buy) && InOrder(b.asks, Sell) && Uncrossed(b)
    ensures Uncrossed(CancelOrder(b, id))
  {
    if id in b.live {
      RemovedHead(b.Of(b.live[id].side), b.live[id].side, id, b.live[id].price);
    }
  }

  lemma RemovedHead(own: seq<Resting>, s: Side, id: string, price: int)
    requires InOrder(own, s)
    ensures var own' := RemoveFirst(own, id, price); own' != [] ==> own != [] && !Better(s, own'[0].price, own[0].price)
  {
  }

  // ----- the book -----

  class Orderbook {
    var bids: seq<PriceLevel>
    var asks: seq<PriceLevel>
    var orders: map<string, Entry>

    ghost function View(): Book
      reads this
    {
      Book(Flatten(bids), Flatten(asks), Index(orders))
    }

    /** No order is indexed that does not rest, none rests that is not indexed, and no fill-and-kill order rests. */
    ghost predicate Valid()
      reads this
    {
      && LevelsOk(bids, Buy) && LevelsOk(asks, Sell) && Uncrossed(View())
      && LiveExact(View()) && NoneToKill(orders)
    }

    constructor ()
      ensures Valid() && View() == EMPTY
    {
      bids, asks, orders := [], [], map[];
    }

    method AddOrder(id: string, side: Side, otype: OrderType, limit: int, qty: int)
      returns (trades: seq<CrossTrade>, stuck: bool)
      requires Valid() && 0 <= qty
      modifies this
      ensures !stuck ==> Valid()
      ensures Added(View(), trades, stuck) == ReferenceSpec.AddOrder(old(View()), id, side, otype, limit, qty)
    {
      hide InsertThenCross, LiveExact, Depth, Valid;
      OpposingLevels(side);
      if id in orders {
        return [], false;
      }
      var kind, price := otype, limit;
      if kind == Market {
        var opposing := if side == Buy then asks else bids;
        if opposing == [] {
          return [], false;
        }
        WorstPrice(opposing, Opposite(side));
        kind, price := Limit, opposing[|opposing| - 1].price;
      }
      if kind == FillAndKill {
        var matches := CanMatch(side, price);
        if !matches {
          return [], false;
        }
      }
      if kind == FillOrKill {
        var fillable := CanFullyFill(side, price, qty);
        if !fillable {
          return [], false;
        }
      }
      trades, stuck := InsertAndMatch(id, side, kind, price, qty);
    }

    lemma OpposingLevels(side: Side)
      requires Valid()
      ensures LevelsOk(bids, Buy) && LevelsOk(asks, Sell)
      ensures LevelsOk(if side.Buy? then asks else bids, Opposite(side))
      ensures View().Of(Opposite(side)) == Flatten(if side.Buy? then asks else bids)
      ensures (if side.Buy? then asks else bids) == [] <==> View().Of(Opposite(side)) == []
    {
      hide LiveExact;
      LevelsInOrder(bids, Buy);
      LevelsInOrder(asks, Sell);
    }

    /** The second half of `AddOrder`: the order takes its place and the book is crossed. */
    method InsertAndMatch(id: string, side: Side, kind: OrderType, price: int, qty: int)
      returns (trades: seq<CrossTrade>, stuck: bool)
      requires Valid() && 0 <= qty && id !in orders
      requires kind.FillAndKill? ==>
        View().Of(Opposite(side)) != [] && Crosses(side, false, price, View().Of(Opposite(side))[0].price)
      modifies this
      ensures !stuck ==> Valid()
      ensures var a := InsertThenCross(old(View()), id, side, price, qty);
        && View() == a.book && trades == a.trades && !a.stuck
        && (stuck <==> kind.FillAndKill? && a.book.Of(side) != [] && a.book.Of(side)[0].id == id)
    {
      hide LiveExact, Uncrossed, Cross, CrossGone, Insert, InsertThenCross, NoneToKill, FrontToKill;
      ghost var before, held := View(), orders;
      InsertThenCrossKeepsBook(before, id, side, price, qty);
      if side == Buy {
        bids := GoldenBook.OrderBook.InsertLevel(bids, price, RestingOrder(id, qty), true);
      } else {
        asks := GoldenBook.OrderBook.InsertLevel(asks, price, RestingOrder(id, qty), false);
      }
      orders := orders[id := Entry(side, price, kind)];
      AddedParts(before, id, side, price, qty);
      trades, stuck := MatchOrders();
      IndexAfter(before, held, id, side, price, qty, kind);
      KillsOnlyNewcomer(before, held, orders, id, side, price, qty, kind);
    }

    /** Trade best bid against best ask while they cross; then a fill-and-kill order at a front is to be cancelled. */
    method MatchOrders() returns (trades: seq<CrossTrade>, stuck: bool)
      requires LevelsOk(bids, Buy) && LevelsOk(asks, Sell)
      modifies this
      ensures LevelsOk(bids, Buy) && LevelsOk(asks, Sell)
      ensures Crossed(trades, Flatten(bids), Flatten(asks)) == Cross(old(Flatten(bids)), old(Flatten(asks)))
      ensures orders == old(orders) - CrossGone(old(Flatten(bids)), old(Flatten(asks)))
      ensures stuck <==> FrontToKill(orders, Flatten(bids)) || FrontToKill(orders, Flatten(asks))
    {
      hide Cross, CrossGone, Ahead;
      ghost var bids0, asks0, orders0 := Flatten(bids), Flatten(asks), orders;
      trades := [];
      AheadStart(bids0, asks0, orders);
      while bids != [] && asks != []
        invariant LevelsOk(bids, Buy) && LevelsOk(asks, Sell)
        invariant Ahead(bids0, asks0, orders0, trades, Flatten(bids), Flatten(asks), orders)
        decreases |Flatten(bids)| + |Flatten(asks)|
      {
        var bid, ask := bids[0], asks[0];
        if bid.price < ask.price {
          break;
        }
        BestLevel(bids, Buy, bid.orders);
        BestLevel(asks, Sell, ask.orders);
        ghost var restBids, restAsks := Flatten(bids[1..]), Flatten(asks[1..]);
        var bs, ks, ts, left := CrossLevels(bid, ask, orders, restBids, restAsks);
        BestLevel(bids, Buy, bs);
        BestLevel(asks, Sell, ks);
        AheadJoins(bids0, asks0, orders0, trades, Flatten(bids), Flatten(asks), orders, ts,
                   Side0(bid.price, bs, restBids), Side0(ask.price, ks, restAsks), left);
        trades, orders := trades + ts, left;
        bids, asks := Edit(bids, 0, bs), Edit(asks, 0, ks);
      }
      CrossingOver(bids, asks, orders);
      CrossingDone(bids0, asks0, orders0, trades, Flatten(bids), Flatten(asks), orders);
      LevelsInOrder(bids, Buy);
      LevelsInOrder(asks, Sell);
      stuck := (bids != [] && ToKill(orders, bids[0].orders[0].botId)) || (asks != [] && ToKill(orders, asks[0].orders[0].botId));
    }

    /** The inner loop: trade the two best levels against each other until one is empty. */
    static method CrossLevels(bid: PriceLevel, ask: PriceLevel, index: map<string, Entry>,
                              ghost bidRest: seq<Resting>, ghost askRest: seq<Resting>)
      returns (bs: seq<RestingOrder>, ks: seq<RestingOrder>, trades: seq<CrossTrade>, orders: map<string, Entry>)
      requires ask.price <= bid.price && bid.orders != [] && ask.orders != []
      requires NoneNegative(bid.orders) && NoneNegative(ask.orders)
      ensures NoneNegative(bs) && NoneNegative(ks) && |bs| + |ks| < |bid.orders| + |ask.orders|
      ensures Ahead(Side0(bid.price, bid.orders, bidRest), Side0(ask.price, ask.orders, askRest), index, trades,
                    Side0(bid.price, bs, bidRest), Side0(ask.price, ks, askRest), orders)
    {
      hide Ahead, Side0, NextOrders;
      bs, ks, trades, orders := bid.orders, ask.orders, [], index;
      AheadStart(Side0(bid.price, bs, bidRest), Side0(ask.price, ks, askRest), orders);
      while bs != [] && ks != []
        invariant NoneNegative(bs) && NoneNegative(ks)
        invariant |bs| + |ks| <= |bid.orders| + |ask.orders|
        invariant |bs| + |ks| < |bid.orders| + |ask.orders| || (bs != [] && ks != [])
        invariant Ahead(Side0(bid.price, bid.orders, bidRest), Side0(ask.price, ask.orders, askRest), index, trades,
                        Side0(bid.price, bs, bidRest), Side0(ask.price, ks, askRest), orders)
        decreases |bs| + |ks|
      {
        var b, a := bs[0], ks[0];
        var quantity := Min(b.qty, a.qty);
        LevelTrade(bid.price, bs, bidRest, ask.price, ks, askRest, orders);
        NextNoneNegative(bs, quantity);
        NextNoneNegative(ks, quantity);
        ghost var was, wasBs, wasKs := orders, bs, ks;
        if b.qty - quantity == 0 {
          orders := orders - {b.botId};
        }
        if a.qty - quantity == 0 {
          orders := orders - {a.botId};
        }
        bs, ks := NextOrders(bs, quantity), NextOrders(ks, quantity);
        var t := CrossTrade(b.botId, bid.price, a.botId, ask.price, quantity);
        AheadJoins(Side0(bid.price, bid.orders, bidRest), Side0(ask.price, ask.orders, askRest), index, trades,
                   Side0(bid.price, wasBs, bidRest), Side0(ask.price, wasKs, askRest), was, [t],
                   Side0(bid.price, bs, bidRest), Side0(ask.price, ks, askRest), orders);
        trades := trades + [t];
      }
    }

    method CanMatch(side: Side, price: int) returns (r: bool)
      requires LevelsOk(bids, Buy) && LevelsOk(asks, Sell)
      ensures r <==> View().Of(Opposite(side)) != [] && Crosses(side, false, price, View().Of(Opposite(side))[0].price)
    {
      LevelsInOrder(bids, Buy);
      LevelsInOrder(asks, Sell);
      if side == Buy {
        return asks != [] && price >= asks[0].price;
      }
      return bids != [] && price <= bids[0].price;
    }

    method CanFullyFill(side: Side, price: int, quantity: int) returns (r: bool)
      requires LevelsOk(bids, Buy) && LevelsOk(asks, Sell)
      ensures r <==> Fillable(View().Of(Opposite(side)), side, price, quantity)
    {
      var available := 0;
      var levels := if side == Buy then asks else bids;
      ghost var total := Depth(Flatten(levels), side, false, price);
      LevelsInOrder(levels, Opposite(side));
      assert levels[0..] == levels;
      for i := 0 to |levels|
        invariant total == available + Depth(Flatten(levels[i..]), side, false, price)
        invariant 0 < i ==> available < quantity && Crosses(side, false, price, levels[0].price)
      {
        LevelDepth(levels, i, side, false, price);
        if side == Buy && levels[i].price > price {
          break;
        }
        if side == Sell && levels[i].price < price {
          break;
        }
        var enough;
        enough, available := TakeLevel(levels[i], side, price, available, quantity);
        if enough {
          return true;
        }
      }
      return false;
    }

    /** The inner loop of `CanFullyFill`: add up one level until there is enough. */
    static method TakeLevel(level: PriceLevel, ghost side: Side, ghost price: int, had: int, quantity: int)
      returns (enough: bool, available: int)
      requires level.orders != [] && NoneNegative(level.orders) && Crosses(side, false, price, level.price)
      ensures enough ==> quantity <= had + Depth(Tag(level.price, level.orders), side, false, price)
      ensures !enough ==> available < quantity && available == had + Depth(Tag(level.price, level.orders), side, false, price)
    {
      available := had;
      var orders := level.orders;
      assert orders[0..] == orders && orders[|orders|..] == [];
      for j := 0 to |orders|
        invariant available + Depth(Tag(level.price, orders[j..]), side, false, price)
               == had + Depth(Tag(level.price, orders), side, false, price)
        invariant 0 < j ==> available < quantity
      {
        OrderDepth(level.price, orders, j, side, false, price);
        OrderDepth(level.price, orders, j + 1, side, false, price);
        available := available + orders[j].qty;
        if available >= quantity {
          return true, available;
        }
      }
      return false, available;
    }

    method CancelOrder(id: string)
      requires Valid()
      modifies this
      ensures Valid() && View() == RankedBook.CancelOrder(old(View()), id)
    {
      hide LiveExact, Uncrossed, RemoveFirst;
      ghost var before := View();
      LevelsInOrder(bids, Buy);
      LevelsInOrder(asks, Sell);
      CancelKeepsUncrossed(before, id);
      CancelKeepsLive(before, id);
      if id !in orders {
        return;
      }
      var order := orders[id];
      IndexWithout(orders, {id});
      orders := orders - {id};
      if order.side == Sell {
        asks := GoldenBook.OrderBook.RemoveOrder(asks, Sell, id, order.price);
      } else {
        bids := GoldenBook.OrderBook.RemoveOrder(bids, Buy, id, order.price);
      }
    }
  }
}
