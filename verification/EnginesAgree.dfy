/** The sample server's engine and the golden model are one engine, except where the sample breaks its own contract. */
module EnginesAgree {
  import opened MarketTypes
  import opened RankedBook
  import opened BookLaws
  import opened BookRuns
  import opened ReferenceSpec

  /**
   The orders the sample server gets right: all but a market order with a remainder, which it leaves resting at the
   worst opposing price, and a crossing fill-and-kill with a remainder, which locks a mutex it already holds.
   */
  predicate SampleConforms(b: Book, s: Side, otype: OrderType, limit: int, qty: int) {
    var opp := b.Of(Opposite(s));
    match otype
    case Market => opp == [] || Depth(opp, s, true, limit) >= qty
    case FillAndKill => opp == [] || !Crosses(s, false, limit, opp[0].price) || Depth(opp, s, false, limit) >= qty
    case _ => true
  }

  /** The price the sample server gives the order: its limit, or for a market order the worst opposing price. */
  function SamplePrice(b: Book, s: Side, otype: OrderType, limit: int): int {
    Band(b.Of(Opposite(s)), otype.Market?, limit)
  }

  lemma SideFacts(b: Book, s: Side)
    requires Sound(b)
    ensures InRank(b.Of(s), s) && InRank(b.Of(Opposite(s)), Opposite(s))
  {
  }

  lemma EmptySide(b: Book, id: string, s: Side, otype: OrderType, limit: int, qty: int)
    requires b.Of(Opposite(s)) == [] && !Rests(otype)
    ensures Submit(b, id, s, otype, limit, qty) == b && SubmitTrades(b, id, s, otype, limit, qty) == []
  {
    assert b.live - {} == b.live;
  }

  /** For a positive quantity the two fill-or-kill tests come to the same. */
  lemma FillableIff(b: Book, s: Side, limit: int, qty: int)
    requires Sound(b) && 0 < qty
    ensures Fillable(b.Of(Opposite(s)), s, limit, qty) <==> qty <= Depth(b.Of(Opposite(s)), s, false, limit)
  {
    RankedDepth(b.Of(Opposite(s)), s, false, limit);
  }

  lemma PlainOrder(b: Book, id: string, s: Side, otype: OrderType, limit: int, qty: int)
    requires Sound(b) && LiveExact(b) && id !in b.live && 0 < qty
    requires otype.Limit? || otype.GoodForDay? || otype.OtherType? || otype.FillOrKill?
    ensures AddOrder(b, id, s, otype, limit, qty)
         == Added(Submit(b, id, s, otype, limit, qty), AsCrosses(s, id, limit, SubmitTrades(b, id, s, otype, limit, qty)), false)
  {
    hide Sweep, Sound, LiveExact, InsertThenCross, Depth, AfterSweep, Fillable;
    FillableIff(b, s, limit, qty);
    InsertThenCrossIsMatchThenRest(b, id, s, limit, qty);
  }

  lemma RestIsVisible(b: Book, id: string, s: Side, price: int, sw: Swept)
    requires id !in b.live && 0 < sw.left
    ensures id in SweepThenRest(b, id, s, price, sw).live && id !in AfterSweep(b, s, sw).live
  {
  }

  lemma MarketOrder(b: Book, id: string, s: Side, limit: int, qty: int)
    requires Sound(b) && LiveExact(b) && id !in b.live && 0 < qty && b.Of(Opposite(s)) != []
    ensures var a := AddOrder(b, id, s, Market, limit, qty);
      && !a.stuck
      && a.trades == AsCrosses(s, id, SamplePrice(b, s, Market, limit), SubmitTrades(b, id, s, Market, limit, qty))
      && (a.book == Submit(b, id, s, Market, limit, qty) <==> SampleConforms(b, s, Market, limit, qty))
  {
    hide Sweep, Sound, LiveExact, InsertThenCross, Depth, AfterSweep, SweepThenRest, AsCrosses;
    var opp := b.Of(Opposite(s));
    var w := opp[|opp| - 1].price;
    WorstAccepted(b, s);
    MarketIsLimit(opp, s, limit, w, qty, id);
    InsertThenCrossIsMatchThenRest(b, id, s, w, qty);
    SideFacts(b, s);
    SweepLeavesShortfall(opp, s, true, limit, w, qty);
    var sw := PlainSweep(b, s, w, qty);
    var golden := SweepOf(b, s, Market, limit, qty);
    SameAfterSweep(b, s, sw, golden);
    if 0 < sw.left {
      RestIsVisible(b, id, s, w, sw);
    } else {
      NothingRests(b, id, s, w, sw);
    }
  }

  lemma SameAfterSweep(b: Book, s: Side, a: Swept, c: Swept)
    requires a.book == c.book
    ensures AfterSweep(b, s, a) == AfterSweep(b, s, c)
  {
  }

  lemma NothingRests(b: Book, id: string, s: Side, price: int, sw: Swept)
    requires sw.left <= 0
    ensures SweepThenRest(b, id, s, price, sw) == AfterSweep(b, s, sw)
  {
  }

  /** A newcomer that crossed and still has quantity stands at the head of its side. */
  lemma RemainderLeads(b: Book, id: string, s: Side, limit: int, qty: int)
    requires Sound(b) && LiveExact(b) && id !in b.live && 0 < qty
    requires b.Of(Opposite(s)) != [] && Crosses(s, false, limit, b.Of(Opposite(s))[0].price)
    ensures var sw := PlainSweep(b, s, limit, qty);
      var own := SweepThenRest(b, id, s, limit, sw).Of(s);
      (0 < sw.left <==> own != [] && own[0].id == id)
  {
    hide Sweep, LiveExact, DistinctIds, LiveAt;
    var sw := PlainSweep(b, s, limit, qty);
    NewcomerLeads(b, id, s, limit, sw.left);
    NotResting(b, id, s);
    assert AfterSweep(b, s, sw).Of(s) == b.Of(s);
  }

  lemma NotResting(b: Book, id: string, s: Side)
    requires LiveExact(b) && id !in b.live
    ensures b.Of(s) != [] ==> b.Of(s)[0].id != id
  {
    hide DistinctIds, LiveAt;
    assert b.Of(s) != [] ==> b.Of(s)[0] in b.Of(s) && b.Of(s)[0].id in Ids(b.Of(s));
  }

  lemma FillAndKillOrder(b: Book, id: string, s: Side, limit: int, qty: int)
    requires Sound(b) && LiveExact(b) && id !in b.live && 0 < qty && b.Of(Opposite(s)) != []
    ensures var a := AddOrder(b, id, s, FillAndKill, limit, qty);
      && a.trades == AsCrosses(s, id, limit, SubmitTrades(b, id, s, FillAndKill, limit, qty))
      && (!a.stuck && a.book == Submit(b, id, s, FillAndKill, limit, qty) <==> SampleConforms(b, s, FillAndKill, limit, qty))
      && (a.stuck <==> !SampleConforms(b, s, FillAndKill, limit, qty))
  {
    var opp := b.Of(Opposite(s));
    if !Crosses(s, false, limit, opp[0].price) {
      NoCrossNoTrade(b, id, s, limit, qty);
    } else {
      hide Sweep, Sound, LiveExact, InsertThenCross, Depth, AfterSweep, SweepThenRest;
      InsertThenCrossIsMatchThenRest(b, id, s, limit, qty);
      SideFacts(b, s);
      SweepLeavesShortfall(opp, s, false, limit, limit, qty);
      RemainderLeads(b, id, s, limit, qty);
      var sw := PlainSweep(b, s, limit, qty);
      if sw.left <= 0 {
        NothingRests(b, id, s, limit, sw);
      }
    }
  }

  lemma NoCrossNoTrade(b: Book, id: string, s: Side, limit: int, qty: int)
    requires b.Of(Opposite(s)) != [] && !Crosses(s, false, limit, b.Of(Opposite(s))[0].price)
    ensures Submit(b, id, s, FillAndKill, limit, qty) == b && SubmitTrades(b, id, s, FillAndKill, limit, qty) == []
  {
    assert b.live - {} == b.live;
  }

  /**
   On any order the sample server makes the golden model's trades, in the same order, and it ends in the golden book
   exactly when `SampleConforms` holds.
   */
  lemma SampleAgreesExactly(b: Book, id: string, s: Side, otype: OrderType, limit: int, qty: int)
    requires Sound(b) && LiveExact(b) && id !in b.live && 0 < qty
    ensures var a := AddOrder(b, id, s, otype, limit, qty);
      && a.trades == AsCrosses(s, id, SamplePrice(b, s, otype, limit), SubmitTrades(b, id, s, otype, limit, qty))
      && (!a.stuck && a.book == Submit(b, id, s, otype, limit, qty) <==> SampleConforms(b, s, otype, limit, qty))
  {
    hide AddOrder, Submit, SubmitTrades, Sound, LiveExact, Depth;
    match otype {
      case Market =>
        if b.Of(Opposite(s)) == [] {
          EmptySide(b, id, s, otype, limit, qty);
          EmptyAdd(b, id, s, otype, limit, qty);
        } else {
          MarketOrder(b, id, s, limit, qty);
        }
      case FillAndKill =>
        if b.Of(Opposite(s)) == [] {
          EmptySide(b, id, s, otype, limit, qty);
          EmptyAdd(b, id, s, otype, limit, qty);
        } else {
          FillAndKillOrder(b, id, s, limit, qty);
        }
      case _ =>
        PlainOrder(b, id, s, otype, limit, qty);
    }
  }

  lemma EmptyAdd(b: Book, id: string, s: Side, otype: OrderType, limit: int, qty: int)
    requires b.Of(Opposite(s)) == [] && !Rests(otype)
    ensures AddOrder(b, id, s, otype, limit, qty) == Added(b, [], false)
  {
  }

  // ----- an order for nothing -----

  lemma ZeroCrosses(b: Book, id: string, s: Side, limit: int)
    requires Sound(b) && LiveExact(b) && id !in b.live
    requires b.Of(Opposite(s)) != [] && Crosses(s, false, limit, b.Of(Opposite(s))[0].price)
    ensures var o := b.Of(Opposite(s))[0];
      InsertThenCross(b, id, s, limit, 0) == Added(b, [AsCross(s, id, limit, Trade(o.id, 0, o.price, limit, false))], false)
  {
    hide Insert, Cross, Consumed, LiveExact;
    var r := Resting(id, limit, 0);
    var own, opp := b.Of(s), b.Of(Opposite(s));
    SideFacts(b, s);
    NewcomerLeads(b, id, s, limit, 0);
    HeadsTrade(s, r, own, opp);
    assert [] + own == own && [opp[0]] + opp[1..] == opp;
    ApartStops(s, own, opp);
    ConsumedHead(r, own);
    ConsumedNone(opp);
    assert b.live[id := Ref(s, limit)] - {id} - {} == b.live;
  }

  lemma ZeroRests(b: Book, id: string, s: Side, limit: int)
    requires Sound(b) && (b.Of(Opposite(s)) == [] || !Crosses(s, false, limit, b.Of(Opposite(s))[0].price))
    ensures InsertThenCross(b, id, s, limit, 0) == Added(Rest(b, id, s, limit, 0), [], false)
  {
    hide Cross, Consumed;
    var r := Resting(id, limit, 0);
    var own, opp := b.Of(s), b.Of(Opposite(s));
    InsertHead(own, s, r);
    ApartStops(s, Insert(own, s, r), opp);
    ConsumedNone(opp);
    ConsumedNone(Insert(own, s, r));
    assert b.live[id := Ref(s, limit)] - {} - {} == b.live[id := Ref(s, limit)];
  }

  lemma InsertHead(own: seq<Resting>, s: Side, r: Resting)
    ensures Insert(own, s, r) != [] && (Insert(own, s, r)[0] == r || (own != [] && Insert(own, s, r)[0] == own[0]))
  {
  }

  /**
   A limit order for quantity 0, which the golden model ignores, does something in the sample: it makes a trade of
   nothing with the best opposing order if it crosses, and rests otherwise.
   */
  lemma ZeroQuantityOrder(b: Book, id: string, s: Side, limit: int)
    requires Sound(b) && LiveExact(b) && id !in b.live
    ensures Submit(b, id, s, Limit, limit, 0) == b && SubmitTrades(b, id, s, Limit, limit, 0) == []
    ensures var opp := b.Of(Opposite(s));
      AddOrder(b, id, s, Limit, limit, 0)
        == if opp != [] && Crosses(s, false, limit, opp[0].price)
           then Added(b, [AsCross(s, id, limit, Trade(opp[0].id, 0, opp[0].price, limit, false))], false)
           else Added(Rest(b, id, s, limit, 0), [], false)
  {
    hide InsertThenCross, Sound, LiveExact;
    assert b.live - {} == b.live;
    if b.Of(Opposite(s)) != [] && Crosses(s, false, limit, b.Of(Opposite(s))[0].price) {
      ZeroCrosses(b, id, s, limit);
    } else {
      ZeroRests(b, id, s, limit);
    }
  }

  // ----- the two ways the sample breaks its contract, on the smallest book -----

  const ONE_ASK := Book([], [Resting("a", 10, 1)], map["a" := Ref(Sell, 10)])

  lemma PairCrosses(bid: Resting, ask: Resting)
    requires ask.price <= bid.price && 0 < bid.qty && 0 < ask.qty
    ensures var q := Min(bid.qty, ask.qty);
      Cross([bid], [ask]) == Crossed([CrossTrade(bid.id, bid.price, ask.id, ask.price, q)], Reduced(bid, q), Reduced(ask, q))
  {
    var q := Min(bid.qty, ask.qty);
    assert [bid][1..] == [] && [ask][1..] == [];
    assert Reduced(bid, q) + [] == Reduced(bid, q) && Reduced(ask, q) + [] == Reduced(ask, q);
    assert Reduced(bid, q) == [] || Reduced(ask, q) == [];
  }

  lemma InsertAlone(s: Side, r: Resting)
    ensures Insert([], s, r) == [r]
  {
  }

  /** A market order for more than there is leaves a bid behind, where the golden model keeps nothing ... */
  lemma SampleKeepsMarketRemainder()
    ensures AddOrder(ONE_ASK, "m", Buy, Market, 0, 2).book.bids == [Resting("m", 10, 1)]
    ensures AddOrder(ONE_ASK, "m", Buy, Market, 0, 2).book.asks == []
    ensures Submit(ONE_ASK, "m", Buy, Market, 0, 2).bids == []
  {
    hide Submit, Cross, Insert;
    PairCrosses(Resting("m", 10, 2), Resting("a", 10, 1));
    InsertAlone(Buy, Resting("m", 10, 2));
    MarketNeverRests(ONE_ASK, "m", Buy, 0, 2);
  }

  lemma MarketNeverRests(b: Book, id: string, s: Side, limit: int, qty: int)
    ensures Submit(b, id, s, Market, limit, qty).Of(s) == b.Of(s)
  {
    hide Sweep;
  }

  /** ... and the next order trades with it, a trade the golden model does not make. */
  lemma RemainderTradesNext(b: Book, g: Book, id: string)
    requires b.bids == [Resting("m", 10, 1)] && b.asks == [] && id !in b.live && g.bids == []
    ensures AddOrder(b, id, Sell, Limit, 10, 1).trades == [CrossTrade("m", 10, id, 10, 1)]
    ensures SubmitTrades(g, id, Sell, Limit, 10, 1) == []
  {
    hide Cross, Insert;
    PairCrosses(Resting("m", 10, 1), Resting(id, 10, 1));
    InsertAlone(Sell, Resting(id, 10, 1));
  }

  /** A crossing fill-and-kill order for more than there is never returns. */
  lemma SampleDeadlocksOnRemainder()
    ensures AddOrder(ONE_ASK, "f", Buy, FillAndKill, 10, 2).stuck
  {
    assert [Resting("a", 10, 1)][1..] == [];
    SoundOneAsk();
    assert !SampleConforms(ONE_ASK, Buy, FillAndKill, 10, 2) by {
      assert Depth([Resting("a", 10, 1)], Buy, false, 10) == 1;
    }
    FillAndKillOrder(ONE_ASK, "f", Buy, 10, 2);
  }

  lemma SoundOneAsk()
    ensures Sound(ONE_ASK) && LiveExact(ONE_ASK)
  {
    assert ONE_ASK.asks[0] in ONE_ASK.asks;
  }

  // ----- whole runs -----

  function SampleStep(b: Book, op: Op): Book {
    match op
    case Place(id, s, otype, limit, qty) => AddOrder(b, id, s, otype, limit, qty).book
    case Pull(id) => CancelOrder(b, id)
  }

  function SampleTrades(b: Book, op: Op): seq<CrossTrade> {
    match op
    case Place(id, s, otype, limit, qty) => AddOrder(b, id, s, otype, limit, qty).trades
    case Pull(_) => []
  }

  function SampleRun(ops: seq<Op>): Book {
    if ops == [] then EMPTY else SampleStep(SampleRun(ops[..|ops| - 1]), ops[|ops| - 1])
  }

  predicate StepConforms(b: Book, op: Op) {
    op.Place? ==> SampleConforms(b, op.side, op.otype, op.limit, op.qty)
  }

  /** Every order so far was one the sample server gets right. */
  predicate RunConforms(ops: seq<Op>) {
    ops == [] || (RunConforms(ops[..|ops| - 1]) && StepConforms(SampleRun(ops[..|ops| - 1]), ops[|ops| - 1]))
  }

  function GoldenTrades(b: Book, op: Op): seq<CrossTrade> {
    match op
    case Place(id, s, otype, limit, qty) =>
      AsCrosses(s, id, SamplePrice(b, s, otype, limit), SubmitTrades(b, id, s, otype, limit, qty))
    case Pull(_) => []
  }

  lemma StepAgrees(b: Book, op: Op)
    requires Sound(b) && LiveExact(b) && (op.Place? ==> op.id !in b.live && 0 < op.qty)
    ensures SampleTrades(b, op) == GoldenTrades(b, op)
    ensures StepConforms(b, op) ==> SampleStep(b, op) == Apply(b, op)
  {
    hide Submit, SubmitTrades, AddOrder, CancelOrder, Sound, LiveExact, SampleConforms;
    if op.Place? {
      SampleAgreesExactly(b, op.id, op.side, op.otype, op.limit, op.qty);
    }
  }

  /**
   Over every run of orders and cancels the sample server gets right, both engines hold the same book, and the next
   operation, right or not, makes the same trades in the same order on both.
   */
  lemma {:induction false} EnginesAgreeOverRuns(ops: seq<Op>, next: Op)
    requires FreshIds(ops + [next]) && PositiveQuantities(ops + [next]) && RunConforms(ops)
    ensures SampleRun(ops) == Run(ops)
    ensures SampleTrades(SampleRun(ops), next) == GoldenTrades(Run(ops), next)
  {
    hide Sound, LiveExact, SampleStep, Apply, SampleTrades, GoldenTrades, StepConforms;
    PrefixFacts(ops + [next]);
    assert (ops + [next])[..|ops|] == ops;
    assert forall op :: op in ops + [next] <==> op in ops || op == next;
    if ops != [] {
      var front, last := ops[..|ops| - 1], ops[|ops| - 1];
      assert front + [last] == ops;
      EnginesAgreeOverRuns(front, last);
      PrefixFacts(ops);
      RunIsSound(front);
      RunIndexIsExact(front);
      StepAgrees(Run(front), last);
    }
    RunIsSound(ops);
    RunIndexIsExact(ops);
    StepAgrees(Run(ops), next);
  }
}
