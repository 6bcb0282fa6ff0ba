/** The golden model: a mutable book of price levels whose every operation is the one of `RankedBook`. */
module GoldenBook {
  import opened MarketTypes
  import opened RankedBook
  import opened BookLaws
  import opened PriceLevels

  // ----- editing one level -----

  /** Level `i` becomes `os`, or disappears when `os` is empty. */
  function Edit(ls: seq<PriceLevel>, i: nat, os: seq<RestingOrder>): seq<PriceLevel>
    requires i < |ls|
  {
    ls[..i] + (if os == [] then [] else [ls[i].(orders := os)]) + ls[i + 1..]
  }

  lemma EditOk(ls: seq<PriceLevel>, s: Side, i: nat, os: seq<RestingOrder>)
    requires LevelsOk(ls, s) && i < |ls| && NoneNegative(os)
    ensures LevelsOk(Edit(ls, i, os), s)
  {
    LevelsOkSplit(ls, s, i);
    LevelsOkSplit(ls[i..], s, 1);
    assert ls[i..][1..] == ls[i + 1..];
    if os == [] {
      LevelsOkJoin(ls[..i], ls[i + 1..], s);
      assert Edit(ls, i, os) == ls[..i] + ls[i + 1..];
    } else {
      var tail := [ls[i].(orders := os)] + ls[i + 1..];
      assert tail[1..] == ls[i + 1..];
      LevelsOkJoin(ls[..i], tail, s);
      assert Edit(ls, i, os) == ls[..i] + tail;
    }
  }

  lemma EditFlat(ls: seq<PriceLevel>, i: nat, os: seq<RestingOrder>)
    requires i < |ls|
    ensures Flatten(Edit(ls, i, os)) == Flatten(ls[..i]) + (Tag(ls[i].price, os) + Flatten(ls[i + 1..]))
  {
    if os == [] {
      FlattenConcat(ls[..i], ls[i + 1..]);
      assert Edit(ls, i, os) == ls[..i] + ls[i + 1..];
    } else {
      var l := ls[i].(orders := os);
      FlattenConcat(ls[..i] + [l], ls[i + 1..]);
      FlattenConcat(ls[..i], [l]);
      FlattenOne(l);
    }
  }

  lemma FlattenHead(ls: seq<PriceLevel>)
    requires ls != []
    ensures Flatten(ls) == Tag(ls[0].price, ls[0].orders) + Flatten(ls[1..])
  {
    hide Tag;
  }

  lemma FlattenAround(ls: seq<PriceLevel>, i: nat)
    requires i < |ls|
    ensures Flatten(ls) == Flatten(ls[..i]) + (Tag(ls[i].price, ls[i].orders) + Flatten(ls[i + 1..]))
  {
    hide Flatten, Tag;
    FlattenConcat(ls[..i], ls[i..]);
    assert ls == ls[..i] + ls[i..];
    FlattenHead(ls[i..]);
    assert ls[i..][1..] == ls[i + 1..];
  }

  lemma {:induction false} InFrontOf(front: seq<PriceLevel>, s: Side, price: int)
    requires forall k :: 0 <= k < |front| ==> Better(s, front[k].price, price)
    ensures forall x :: x in Flatten(front) ==> Better(s, x.price, price)
  {
    if front != [] {
      InFrontOf(front[1..], s, price);
      TagShape(front[0].price, front[0].orders);
    }
  }

  lemma InsertInLevel(l: PriceLevel, s: Side, ord: RestingOrder, rest: seq<Resting>)
    requires rest != [] ==> Better(s, l.price, rest[0].price)
    ensures Insert(Tag(l.price, l.orders) + rest, s, Resting(ord.botId, l.price, ord.qty))
         == Tag(l.price, l.orders + [ord]) + rest
  {
    var r := Resting(ord.botId, l.price, ord.qty);
    var own := Tag(l.price, l.orders);
    TagConcat(l.price, l.orders, [ord]);
    assert Tag(l.price, [ord]) == [r] by {
      assert [ord][1..] == [];
    }
    TagShape(l.price, l.orders);
    InsertBehind(own, rest, s, r);
    assert own + [r] + rest == own + ([r] + rest);
  }

  lemma JoinAtLevel(ls: seq<PriceLevel>, s: Side, i: nat, ord: RestingOrder)
    requires LevelsOk(ls, s) && i < |ls| && 0 <= ord.qty
    requires forall k :: 0 <= k < i ==> Better(s, ls[k].price, ls[i].price)
    ensures Flatten(Edit(ls, i, ls[i].orders + [ord])) == Insert(Flatten(ls), s, Resting(ord.botId, ls[i].price, ord.qty))
  {
    EditFlat(ls, i, ls[i].orders + [ord]);
    FlattenAround(ls, i);
    InFrontOf(ls[..i], s, ls[i].price);
    LevelsOkSplit(ls, s, i);
    LevelsOkSplit(ls[i..], s, 1);
    assert ls[i..][1..] == ls[i + 1..];
    LevelsInOrder(ls[i + 1..], s);
    InsertInLevel(ls[i], s, ord, Flatten(ls[i + 1..]));
    InsertBehind(Flatten(ls[..i]), Tag(ls[i].price, ls[i].orders) + Flatten(ls[i + 1..]), s, Resting(ord.botId, ls[i].price, ord.qty));
  }

  lemma OpenLevel(ls: seq<PriceLevel>, s: Side, i: nat, price: int, ord: RestingOrder)
    requires LevelsOk(ls, s) && i <= |ls| && 0 <= ord.qty
    requires forall k :: 0 <= k < i ==> Better(s, ls[k].price, price)
    requires i < |ls| ==> Better(s, price, ls[i].price)
    ensures var ls' := ls[..i] + [PriceLevel(price, [ord])] + ls[i..];
      LevelsOk(ls', s) && Flatten(ls') == Insert(Flatten(ls), s, Resting(ord.botId, price, ord.qty))
  {
    hide Flatten, Tag, Insert, LevelsOk;
    var l := PriceLevel(price, [ord]);
    var r := Resting(ord.botId, price, ord.qty);
    LevelsOkSplit(ls, s, i);
    LevelsOkCons(l, ls[i..], s);
    LevelsOkJoin(ls[..i], [l] + ls[i..], s);
    assert ls[..i] + [l] + ls[i..] == ls[..i] + ([l] + ls[i..]);
    FlattenConcat(ls[..i], [l] + ls[i..]);
    FlattenConcat([l], ls[i..]);
    FlattenOne(l);
    TagOne(price, ord);
    FlattenConcat(ls[..i], ls[i..]);
    assert ls == ls[..i] + ls[i..];
    InFrontOf(ls[..i], s, price);
    BetterIsNotWorse(Flatten(ls[..i]), s, price);
    InsertBehind(Flatten(ls[..i]), Flatten(ls[i..]), s, r);
    NothingInFront(ls[i..], s, r);
  }

  lemma LevelsOkCons(l: PriceLevel, ls: seq<PriceLevel>, s: Side)
    requires LevelsOk(ls, s) && l.orders != [] && NoneNegative(l.orders)
    requires ls != [] ==> Better(s, l.price, ls[0].price)
    ensures LevelsOk([l] + ls, s)
  {
    assert ([l] + ls)[1..] == ls;
  }

  lemma BetterIsNotWorse(rs: seq<Resting>, s: Side, price: int)
    requires forall x :: x in rs ==> Better(s, x.price, price)
    ensures forall x :: x in rs ==> !Better(s, price, x.price)
  {
  }

  /** A better price than every level's goes to the front. */
  lemma NothingInFront(ls: seq<PriceLevel>, s: Side, r: Resting)
    requires LevelsOk(ls, s) && (ls != [] ==> Better(s, r.price, ls[0].price))
    ensures Insert(Flatten(ls), s, r) == [r] + Flatten(ls)
  {
    LevelsInOrder(ls, s);
  }

  predicate AbsentAt(l: PriceLevel, id: string) {
    forall k :: 0 <= k < |l.orders| ==> l.orders[k].botId != id
  }

  lemma {:induction false} NotThere(ls: seq<PriceLevel>, id: string, price: int)
    requires forall k :: 0 <= k < |ls| ==> ls[k].price != price || AbsentAt(ls[k], id)
    ensures forall x :: x in Flatten(ls) ==> !(x.id == id && x.price == price)
  {
    if ls != [] {
      NotThere(ls[1..], id, price);
      TagShape(ls[0].price, ls[0].orders);
    }
  }

  lemma TakeFromLevel(ls: seq<PriceLevel>, s: Side, i: nat, j: nat)
    requires LevelsOk(ls, s) && i < |ls| && j < |ls[i].orders|
    requires forall k :: 0 <= k < i ==> ls[k].price != ls[i].price || AbsentAt(ls[k], ls[i].orders[j].botId)
    requires forall k :: 0 <= k < j ==> ls[i].orders[k].botId != ls[i].orders[j].botId
    ensures Flatten(Edit(ls, i, ls[i].orders[..j] + ls[i].orders[j + 1..]))
         == RemoveFirst(Flatten(ls), ls[i].orders[j].botId, ls[i].price)
  {
    EditFlat(ls, i, ls[i].orders[..j] + ls[i].orders[j + 1..]);
    FlattenAround(ls, i);
    NotThere(ls[..i], ls[i].orders[j].botId, ls[i].price);
    RemoveBehind(Flatten(ls[..i]), Tag(ls[i].price, ls[i].orders) + Flatten(ls[i + 1..]), ls[i].orders[j].botId, ls[i].price);
    RemoveInLevel(ls[i], j, Flatten(ls[i + 1..]));
  }

  lemma RemoveInLevel(l: PriceLevel, j: nat, rest: seq<Resting>)
    requires j < |l.orders| && forall k :: 0 <= k < j ==> l.orders[k].botId != l.orders[j].botId
    ensures RemoveFirst(Tag(l.price, l.orders) + rest, l.orders[j].botId, l.price)
         == Tag(l.price, l.orders[..j] + l.orders[j + 1..]) + rest
  {
    hide Tag, RemoveFirst;
    var a, o, c := l.orders[..j], l.orders[j], l.orders[j + 1..];
    var r := Resting(o.botId, l.price, o.qty);
    assert l.orders == a + ([o] + c);
    TagConcat(l.price, a, [o] + c);
    TagConcat(l.price, [o], c);
    TagOne(l.price, o);
    TagConcat(l.price, a, c);
    TagShape(l.price, a);
    var front, behind := Tag(l.price, a), Tag(l.price, c) + rest;
    assert Tag(l.price, l.orders) + rest == front + ([r] + behind);
    RemoveBehind(front, [r] + behind, o.botId, l.price);
    RemoveHead(r, behind);
    assert front + behind == Tag(l.price, a + c) + rest;
  }

  lemma TagOne(price: int, o: RestingOrder)
    ensures Tag(price, [o]) == [Resting(o.botId, price, o.qty)]
  {
    assert Tag(price, [o][1..]) == [];
  }

  lemma RemoveHead(r: Resting, behind: seq<Resting>)
    ensures RemoveFirst([r] + behind, r.id, r.price) == behind
  {
    assert ([r] + behind)[1..] == behind;
  }

  lemma {:induction false} LevelAt(ls: seq<PriceLevel>, s: Side, i: nat)
    requires LevelsOk(ls, s) && i < |ls|
    ensures ls[i].orders != [] && NoneNegative(ls[i].orders)
  {
    if 0 < i {
      LevelAt(ls[1..], s, i - 1);
    }
  }

  // ----- depth, level by level -----

  lemma LevelDepth(ls: seq<PriceLevel>, i: nat, s: Side, market: bool, limit: int)
    requires LevelsOk(ls, Opposite(s)) && i < |ls|
    ensures NoneNegative(ls[i].orders) && ls[i].orders != []
    ensures Depth(Flatten(ls[i..]), s, market, limit)
         == Depth(Tag(ls[i].price, ls[i].orders), s, market, limit) + Depth(Flatten(ls[i + 1..]), s, market, limit)
    ensures 0 <= Depth(Flatten(ls[i + 1..]), s, market, limit)
    ensures !Crosses(s, market, limit, ls[i].price) ==> Depth(Flatten(ls[i..]), s, market, limit) == 0
  {
    LevelsOkSplit(ls, Opposite(s), i);
    LevelsOkSplit(ls, Opposite(s), i + 1);
    LevelsInOrder(ls[i..], Opposite(s));
    LevelsInOrder(ls[i + 1..], Opposite(s));
    DepthFacts(Flatten(ls[i..]), s, market, limit);
    DepthFacts(Flatten(ls[i + 1..]), s, market, limit);
    assert ls[i..][1..] == ls[i + 1..];
    DepthConcat(Tag(ls[i].price, ls[i].orders), Flatten(ls[i + 1..]), s, market, limit);
    LevelAt(ls, Opposite(s), i);
  }

  lemma {:induction false} OrderDepth(price: int, os: seq<RestingOrder>, j: nat, s: Side, market: bool, limit: int)
    requires NoneNegative(os) && j <= |os| && Crosses(s, market, limit, price)
    ensures 0 <= Depth(Tag(price, os[j..]), s, market, limit)
    ensures j < |os| ==>
      Depth(Tag(price, os[j..]), s, market, limit) == os[j].qty + Depth(Tag(price, os[j + 1..]), s, market, limit)
    decreases |os| - j
  {
    if j < |os| {
      OrderDepth(price, os, j + 1, s, market, limit);
      assert os[j..][1..] == os[j + 1..];
    }
  }

  // ----- matching, round by round -----

  /** `flat` is `opp` with some orders gone from the front, quantities apart. */
  predicate TailOf(flat: seq<Resting>, opp: seq<Resting>) {
    |flat| <= |opp| && forall k :: 0 <= k < |flat| ==> flat[k].id == opp[|opp| - |flat| + k].id
  }

  lemma TailStep(flat: seq<Resting>, opp: seq<Resting>, m: int)
    requires TailOf(flat, opp) && flat != []
    ensures TailOf(Reduced(flat[0], m) + flat[1..], opp)
    ensures Consumed(opp, Reduced(flat[0], m) + flat[1..]) == Consumed(opp, flat) + (if m == flat[0].qty then {flat[0].id} else {})
  {
    var n := |opp| - |flat|;
    assert opp[..n + 1] == opp[..n] + [opp[n]];
    IdsConcat(opp[..n], [opp[n]]);
    assert Ids([opp[n]]) == {opp[n].id};
  }

  /** The orders of a level once its first order traded `m`. */
  function NextOrders(os: seq<RestingOrder>, m: int): seq<RestingOrder>
    requires os != []
  {
    (if m == os[0].qty then [] else [os[0].(qty := os[0].qty - m)]) + os[1..]
  }

  lemma EditHead(ls: seq<PriceLevel>, s: Side, m: int)
    requires LevelsOk(ls, s) && ls != [] && m <= ls[0].orders[0].qty
    ensures LevelsOk(Edit(ls, 0, NextOrders(ls[0].orders, m)), s)
    ensures Flatten(ls) != [] && Flatten(Edit(ls, 0, NextOrders(ls[0].orders, m))) == Reduced(Flatten(ls)[0], m) + Flatten(ls)[1..]
  {
    var os := NextOrders(ls[0].orders, m);
    EditOk(ls, s, 0, os);
    EditFlat(ls, 0, os);
    TagNext(ls[0], m, Flatten(ls[1..]));
    assert Flatten(ls[..0]) == [];
  }

  lemma TagNext(l: PriceLevel, m: int, rest: seq<Resting>)
    requires l.orders != []
    ensures Tag(l.price, l.orders) + rest != []
    ensures Tag(l.price, NextOrders(l.orders, m)) + rest == Reduced((Tag(l.price, l.orders) + rest)[0], m) + (Tag(l.price, l.orders) + rest)[1..]
  {
    var tail := Tag(l.price, l.orders[1..]);
    assert (Tag(l.price, l.orders) + rest)[1..] == tail + rest;
    if m == l.orders[0].qty {
      assert NextOrders(l.orders, m) == l.orders[1..];
    } else {
      assert NextOrders(l.orders, m)[1..] == l.orders[1..];
    }
  }

  lemma PrependTwice(a: seq<Trade>, b: seq<Trade>, sw: Swept)
    ensures Prepend(a, Prepend(b, sw)) == Prepend(a + b, sw)
  {
    assert a + (b + sw.trades) == a + b + sw.trades;
  }

  /**
   The loop invariant of matching: what has been traded so far, followed by a sweep of what still rests,
   is the sweep of the original list, and the index has lost exactly the orders that are gone.
   */
  ghost predicate SoFar(opp: seq<Resting>, index: map<string, Ref>, whole: Swept, s: Side, market: bool, limit: int,
                        band: int, trades: seq<Trade>, flat: seq<Resting>, live: map<string, Ref>, remaining: int)
  {
    && TailOf(flat, opp)
    && live == index - Consumed(opp, flat)
    && whole == Prepend(trades, Sweep(flat, s, market, limit, band, remaining))
  }

  lemma ReducedRank(flat: seq<Resting>, s: Side, m: int)
    requires InRank(flat, s) && flat != [] && m <= flat[0].qty
    ensures InRank(Reduced(flat[0], m) + flat[1..], s)
  {
    var next := Reduced(flat[0], m) + flat[1..];
    if m == flat[0].qty {
      assert next == flat[1..];
    } else {
      assert next[1..] == flat[1..];
    }
  }

  lemma Round(opp: seq<Resting>, index: map<string, Ref>, whole: Swept, s: Side, market: bool, limit: int,
              band: int, trades: seq<Trade>, flat: seq<Resting>, live: map<string, Ref>, remaining: int)
    requires SoFar(opp, index, whole, s, market, limit, band, trades, flat, live, remaining)
    requires InRank(flat, Opposite(s)) && flat != [] && 0 < remaining && Crosses(s, market, limit, flat[0].price)
    ensures var m := Min(remaining, flat[0].qty);
      var t := Trade(flat[0].id, m, flat[0].price, band, market);
      var live' := if m == flat[0].qty then live - {flat[0].id} else live;
      && SoFar(opp, index, whole, s, market, limit, band, trades + [t], Reduced(flat[0], m) + flat[1..], live', remaining - m)
      && InRank(Reduced(flat[0], m) + flat[1..], Opposite(s))
  {
    var m := Min(remaining, flat[0].qty);
    var t := Trade(flat[0].id, m, flat[0].price, band, market);
    var next := Sweep(Reduced(flat[0], m) + flat[1..], s, market, limit, band, remaining - m);
    assert Sweep(flat, s, market, limit, band, remaining) == Prepend([t], next) by {
      SweepStep(flat, s, market, limit, band, remaining);
    }
    PrependTwice(trades, [t], next);
    TailStep(flat, opp, m);
    ReducedRank(flat, Opposite(s), m);
  }

  /** A round on the levels is a round on the list they denote. */
  lemma LevelRound(opp: seq<Resting>, index: map<string, Ref>, whole: Swept, s: Side, market: bool, limit: int,
                   band: int, trades: seq<Trade>, ls: seq<PriceLevel>, live: map<string, Ref>, remaining: int)
    requires LevelsOk(ls, Opposite(s)) && ls != [] && 0 < remaining && Crosses(s, market, limit, ls[0].price)
    requires InRank(Flatten(ls), Opposite(s))
    requires SoFar(opp, index, whole, s, market, limit, band, trades, Flatten(ls), live, remaining)
    ensures var maker := ls[0].orders[0];
      var m := Min(remaining, maker.qty);
      var t := Trade(maker.botId, m, ls[0].price, band, market);
      var live' := if m == maker.qty then live - {maker.botId} else live;
      var ls' := Edit(ls, 0, NextOrders(ls[0].orders, m));
      && 0 < m
      && LevelsOk(ls', Opposite(s)) && InRank(Flatten(ls'), Opposite(s))
      && |Flatten(ls')| <= |Flatten(ls)|
      && SoFar(opp, index, whole, s, market, limit, band, trades + [t], Flatten(ls'), live', remaining - m)
  {
    LevelsInOrder(ls, Opposite(s));
    Round(opp, index, whole, s, market, limit, band, trades, Flatten(ls), live, remaining);
    EditHead(ls, Opposite(s), Min(remaining, ls[0].orders[0].qty));
  }

  lemma NothingSoFar(opp: seq<Resting>, index: map<string, Ref>, s: Side, market: bool, limit: int, band: int, qty: int)
    ensures SoFar(opp, index, Sweep(opp, s, market, limit, band, qty), s, market, limit, band, [], opp, index, qty)
  {
    hide Sweep;
    assert Consumed(opp, opp) == {};
    assert index - {} == index;
    var sw := Sweep(opp, s, market, limit, band, qty);
    assert [] + sw.trades == sw.trades;
  }

  /** When no further round is possible what was traded so far is the whole sweep. */
  lemma SweptOver(opp: seq<Resting>, index: map<string, Ref>, whole: Swept, s: Side, market: bool, limit: int,
                  band: int, trades: seq<Trade>, ls: seq<PriceLevel>, live: map<string, Ref>, remaining: int)
    requires LevelsOk(ls, Opposite(s))
    requires SoFar(opp, index, whole, s, market, limit, band, trades, Flatten(ls), live, remaining)
    requires remaining <= 0 || ls == [] || !Crosses(s, market, limit, ls[0].price)
    ensures whole == Swept(trades, Flatten(ls), remaining) && live == index - Consumed(opp, Flatten(ls))
  {
    hide Consumed, LevelsOk, TailOf;
    LevelsInOrder(ls, Opposite(s));
    assert Sweep(Flatten(ls), s, market, limit, band, remaining) == Swept([], Flatten(ls), remaining);
    assert trades + [] == trades;
  }

  // ----- the book -----

  class OrderBook {
    var bids: seq<PriceLevel>
    var asks: seq<PriceLevel>
    var live: map<string, Ref>

    ghost function View(): Book
      reads this
    {
      Book(Flatten(bids), Flatten(asks), live)
    }

    ghost predicate Valid()
      reads this
    {
      LevelsOk(bids, Buy) && LevelsOk(asks, Sell) && Sound(View())
    }

    constructor ()
      ensures Valid() && View() == EMPTY
    {
      bids, asks, live := [], [], map[];
    }

    method Submit(botId: string, side: Side, otype: OrderType, limit: int, qty: int) returns (trades: seq<Trade>)
      requires Valid()
      modifies this
      ensures Valid()
      ensures View() == RankedBook.Submit(old(View()), botId, side, otype, limit, qty)
      ensures trades == SubmitTrades(old(View()), botId, side, otype, limit, qty)
    {
      SubmitKeepsSound(View(), botId, side, otype, limit, qty);
      var market := otype == Market;
      if otype == FillOrKill {
        var fillable := CanFullyFill(side, market, limit, qty);
        if !fillable {
          return [];
        }
      }
      ghost var before := View();
      var remaining;
      trades, remaining := Match(side, market, limit, qty);
      assert trades == SweepOf(before, side, otype, limit, qty).trades;
      if 0 < remaining {
        match otype {
          case Market => // cancel the remainder
          case FillAndKill => // cancel the remainder
          case _ =>
            if !market {
              Rest(botId, side, limit, remaining);
            }
        }
      }
    }

    method Match(side: Side, market: bool, limit: int, qty: int) returns (trades: seq<Trade>, remaining: int)
      requires LevelsOk(bids, Buy) && LevelsOk(asks, Sell) && InRank(View().Of(Opposite(side)), Opposite(side))
      modifies this
      ensures LevelsOk(bids, Buy) && LevelsOk(asks, Sell)
      ensures var opp := old(View()).Of(Opposite(side));
        var sw := Sweep(opp, side, market, limit, Band(opp, market, limit), qty);
        && trades == sw.trades && remaining == sw.left
        && View() == AfterSweep(old(View()), side, sw)
    {
      var levels := if side == Buy then asks else bids;
      var aggBand := limit;
      if market && 0 < |levels| {
        WorstPrice(levels, Opposite(side));
        aggBand := levels[|levels| - 1].price;
      }
      trades, levels, live, remaining := SweepLevels(levels, live, side, market, limit, aggBand, qty);
      if side == Buy {
        asks := levels;
      } else {
        bids := levels;
      }
    }

    /** The matching loop, which the source writes out once per side. */
    static method SweepLevels(start: seq<PriceLevel>, index: map<string, Ref>, side: Side, market: bool, limit: int,
                              aggBand: int, qty: int)
      returns (trades: seq<Trade>, levels: seq<PriceLevel>, live: map<string, Ref>, remaining: int)
      requires LevelsOk(start, Opposite(side)) && InRank(Flatten(start), Opposite(side))
      ensures LevelsOk(levels, Opposite(side))
      ensures Sweep(Flatten(start), side, market, limit, aggBand, qty) == Swept(trades, Flatten(levels), remaining)
      ensures live == index - Consumed(Flatten(start), Flatten(levels))
    {
      hide LevelsOk, SoFar, Consumed, Sweep, Edit, NextOrders;
      ghost var opp := Flatten(start);
      ghost var whole := Sweep(opp, side, market, limit, aggBand, qty);
      trades, levels, live, remaining := [], start, index, qty;
      NothingSoFar(opp, index, side, market, limit, aggBand, qty);
      while 0 < remaining && 0 < |levels|
        invariant LevelsOk(levels, Opposite(side)) && InRank(Flatten(levels), Opposite(side))
        invariant SoFar(opp, index, whole, side, market, limit, aggBand, trades, Flatten(levels), live, remaining)
        decreases |Flatten(levels)|, remaining
      {
        var level := levels[0];
        if !Crosses(side, market, limit, level.price) {
          break;
        }
        LevelAt(levels, Opposite(side), 0);
        LevelRound(opp, index, whole, side, market, limit, aggBand, trades, levels, live, remaining);
        var maker := level.orders[0];
        var m := Min(remaining, maker.qty);
        trades := trades + [Trade(maker.botId, m, level.price, aggBand, market)];
        remaining := remaining - m;
        if maker.qty - m == 0 {
          live := live - {maker.botId};
        }
        levels := Edit(levels, 0, NextOrders(level.orders, m));
      }
      SweptOver(opp, index, whole, side, market, limit, aggBand, trades, levels, live, remaining);
    }

    method CanFullyFill(side: Side, market: bool, limit: int, qty: int) returns (r: bool)
      requires LevelsOk(bids, Buy) && LevelsOk(asks, Sell)
      ensures r <==> qty <= 0 || qty <= Depth(View().Of(Opposite(side)), side, market, limit)
    {
      var need := qty;
      var levels := if side == Sell then bids else asks;
      ghost var total := Depth(Flatten(levels), side, market, limit);
      assert levels[0..] == levels;
      for i := 0 to |levels|
        invariant qty - total == need - Depth(Flatten(levels[i..]), side, market, limit)
        invariant 0 < i ==> 0 < need <= qty
      {
        LevelDepth(levels, i, side, market, limit);
        if !market {
          if side == Buy && levels[i].price > limit {
            break;
          }
          if side == Sell && levels[i].price < limit {
            break;
          }
        }
        var filled;
        filled, need := FillFrom(levels[i], side, market, limit, need);
        if filled {
          return true;
        }
      }
      return need <= 0;
    }

    /** The inner loop of `CanFullyFill`: take the orders of one acceptable level until nothing is needed. */
    static method FillFrom(level: PriceLevel, ghost side: Side, ghost market: bool, ghost limit: int, needed: int)
      returns (filled: bool, need: int)
      requires NoneNegative(level.orders) && level.orders != [] && Crosses(side, market, limit, level.price)
      ensures filled ==> needed <= Depth(Tag(level.price, level.orders), side, market, limit)
      ensures !filled ==> 0 < need <= needed && need == needed - Depth(Tag(level.price, level.orders), side, market, limit)
    {
      need := needed;
      var orders := level.orders;
      assert orders[0..] == orders && orders[|orders|..] == [];
      for j := 0 to |orders|
        invariant needed - need
               == Depth(Tag(level.price, orders), side, market, limit) - Depth(Tag(level.price, orders[j..]), side, market, limit)
        invariant need <= needed && (0 < j ==> 0 < need)
      {
        OrderDepth(level.price, orders, j, side, market, limit);
        OrderDepth(level.price, orders, j + 1, side, market, limit);
        need := need - orders[j].qty;
        if need <= 0 {
          return true, need;
        }
      }
      return false, need;
    }

    method Rest(botId: string, side: Side, price: int, qty: int)
      requires LevelsOk(bids, Buy) && LevelsOk(asks, Sell) && 0 <= qty
      modifies this
      ensures LevelsOk(bids, Buy) && LevelsOk(asks, Sell)
      ensures View() == RankedBook.Rest(old(View()), botId, side, price, qty)
    {
      live := live[botId := Ref(side, price)];
      if side == Buy {
        bids := InsertLevel(bids, price, RestingOrder(botId, qty), true);
      } else {
        asks := InsertLevel(asks, price, RestingOrder(botId, qty), false);
      }
    }

    static method InsertLevel(levels: seq<PriceLevel>, price: int, ord: RestingOrder, desc: bool)
      returns (levels': seq<PriceLevel>)
      requires LevelsOk(levels, if desc then Buy else Sell) && 0 <= ord.qty
      ensures var s := if desc then Buy else Sell;
        && LevelsOk(levels', s)
        && Flatten(levels') == Insert(Flatten(levels), s, Resting(ord.botId, price, ord.qty))
    {
      ghost var s := if desc then Buy else Sell;
      for i := 0 to |levels|
        invariant forall k :: 0 <= k < i ==> Better(s, levels[k].price, price)
      {
        if levels[i].price == price {
          JoinAtLevel(levels, s, i, ord);
          LevelAt(levels, s, i);
          EditOk(levels, s, i, levels[i].orders + [ord]);
          return Edit(levels, i, levels[i].orders + [ord]);
        }
        var better := levels[i].price > price;
        if desc {
          better := levels[i].price < price;
        }
        if better {
          OpenLevel(levels, s, i, price, ord);
          return levels[..i] + [PriceLevel(price, [ord])] + levels[i..];
        }
      }
      OpenLevel(levels, s, |levels|, price, ord);
      levels' := levels + [PriceLevel(price, [ord])];
      assert levels' == levels[..|levels|] + [PriceLevel(price, [ord])] + levels[|levels|..];
    }

    method CancelById(botId: string) returns (found: bool)
      requires Valid()
      modifies this
      ensures Valid()
      ensures View() == CancelOrder(old(View()), botId)
      ensures found == (botId in old(View()).live)
    {
      CancelKeepsSound(View(), botId);
      if botId !in live {
        return false;
      }
      var ref := live[botId];
      live := live - {botId};
      var levels := if ref.side == Buy then bids else asks;
      levels := RemoveOrder(levels, ref.side, botId, ref.price);
      if ref.side == Buy {
        bids := levels;
      } else {
        asks := levels;
      }
      return true;
    }

    static method RemoveOrder(levels: seq<PriceLevel>, ghost s: Side, botId: string, price: int)
      returns (levels': seq<PriceLevel>)
      requires LevelsOk(levels, s)
      ensures LevelsOk(levels', s) && Flatten(levels') == RemoveFirst(Flatten(levels), botId, price)
    {
      ghost var flat := Flatten(levels);
      for i := 0 to |levels|
        invariant forall k :: 0 <= k < i ==> levels[k].price != price || AbsentAt(levels[k], botId)
      {
        if levels[i].price != price {
          continue;
        }
        var orders := levels[i].orders;
        for j := 0 to |orders|
          invariant forall k :: 0 <= k < j ==> orders[k].botId != botId
        {
          if orders[j].botId != botId {
            continue;
          }
          TakeFromLevel(levels, s, i, j);
          LevelAt(levels, s, i);
          EditOk(levels, s, i, orders[..j] + orders[j + 1..]);
          return Edit(levels, i, orders[..j] + orders[j + 1..]);
        }
      }
      NotThere(levels, botId, price);
      RemoveBehind(flat, [], botId, price);
      assert flat + [] == flat;
      return levels;
    }
  }
}
