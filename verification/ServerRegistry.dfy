/**
 The sample server's registry of orders a cancel can still find: throughout a run it lists, under the server's own ids,
 exactly the orders that rest on tickers whose engine is not locked.
 */
module ServerRegistry {
  import opened MarketTypes
  import opened RankedBook
  import opened BookLaws
  import opened Differential
  import opened Writer
  import opened ReplaySpec
  import opened Contestant
  import opened ReferenceSpec
  import opened EnginesAgree
  import opened SampleServer

  // ----- which orders leave a book -----

  /** Only the makers of its trades leave the book an order meets. */
  lemma OnlyMakersLeave(b: Book, id: string, s: Side, otype: OrderType, limit: int, qty: int, m: string)
    requires Sound(b) && LiveExact(b)
    requires m in b.live && m !in Submit(b, id, s, otype, limit, qty).live
    ensures m in Makers(SubmitTrades(b, id, s, otype, limit, qty))
  {
    hide Sweep, InRank, Uncrossed, Indexed;
    var opp, market := b.Of(Opposite(s)), otype.Market?;
    var band := Band(opp, market, limit);
    var sw := SweepOf(b, s, otype, limit, qty);
    assert InRank(opp, Opposite(s));
    var n := SweepBook(opp, s, market, limit, band, qty);
    assert m in Consumed(opp, sw.book);
    assert |sw.book| == |opp| - n;
    var i :| 0 <= i < n && opp[i].id == m;
    SweepTrades(opp, s, market, limit, band, qty, i);
    assert sw.trades[i] in sw.trades;
  }

  lemma PartiesAre(s: Side, id: string, limit: int, ts: seq<Trade>)
    ensures forall m :: m in Makers(ts) ==> m in Parties(AsCrosses(s, id, limit, ts))
    ensures Parties(AsCrosses(s, id, limit, ts)) <= Makers(ts) + {id}
  {
    hide AsCrosses;
    var cs := AsCrosses(s, id, limit, ts);
    if ts == [] {
      NoCrosses(s, id, limit);
    } else {
      CrossesAt(s, id, limit, ts, 0);
    }
    forall i | 0 <= i < |ts| ensures cs[i] == AsCross(s, id, limit, ts[i]) {
      CrossesAt(s, id, limit, ts, i);
    }
    forall m | m in Makers(ts) ensures m in Parties(cs) {
      var t :| t in ts && t.maker == m;
      var i :| 0 <= i < |ts| && ts[i] == t;
      assert cs[i] in cs;
    }
    forall m | m in Parties(cs) ensures m in Makers(ts) + {id} {
      var c :| c in cs && (c.bidId == m || c.askId == m);
      var i :| 0 <= i < |cs| && cs[i] == c;
      assert ts[i] in ts;
    }
  }

  // ----- the registry is exact -----

  ghost predicate RestsOn(sv: Server, t: string, bot: string) {
    t !in sv.locked && bot in BookFor(sv.books, t).live
  }

  /** The server knows this order under its own id. */
  ghost predicate Lists(sv: Server, t: string, bot: string) {
    bot in sv.number && sv.number[bot] in sv.registry && sv.registry[sv.number[bot]] == Known(bot, t)
  }

  ghost predicate RestingIsKnown(sv: Server) {
    forall t, bot :: RestsOn(sv, t, bot) ==> Lists(sv, t, bot)
  }

  ghost predicate KnownRests(sv: Server) {
    forall n :: n in sv.registry && sv.registry[n].ticker !in sv.locked ==> RestsOn(sv, sv.registry[n].ticker, sv.registry[n].bot)
  }

  ghost predicate RegistryExact(sv: Server) {
    RestingIsKnown(sv) && KnownRests(sv)
  }

  /** A registered id is the number of the order it stands for. */
  lemma RegisteredNumber(sv: Server, w: World, n: nat)
    requires Mirrors(sv, w) && n in sv.registry
    ensures n < sv.nextId && sv.registry[n].bot in sv.number && sv.number[sv.registry[n].bot] == n
  {
    assert n in w.owner;
  }

  /** An order rests on one ticker only. */
  lemma OneHome(sv: Server, w: World, t: string, u: string, bot: string)
    requires Mirrors(sv, w) && WorldOk(w) && RestsOn(sv, t, bot) && RestsOn(sv, u, bot)
    ensures t == u
  {
    EmptyLive();
    assert LiveIn(w.books, t, bot) && LiveIn(w.books, u, bot);
  }

  /** What one served order does to the book it meets. */
  lemma ServedBook(sv: Server, w: World, r: Request)
    requires Mirrors(sv, w) && WorldOk(w) && r.NewOrder? && Asks(sv, r) && FateOf(sv, r).Served?
    ensures var b, a := BookFor(sv.books, r.ticker), Taken(sv, r);
      var touched := {r.orderId} + Parties(a.trades);
      && a.book.live.Keys <= b.live.Keys + {r.orderId}
      && (forall m :: m in touched && m != r.orderId ==> m in b.live)
      && (forall m :: m in b.live && m !in touched ==> m in a.book.live)
  {
    hide Sound, LiveExact, Submit, SubmitTrades, AsCrosses, Parties, Makers, WorldOk, NumbersAgree, RegistryAgrees,
         AddOrder, SampleConforms;
    var b, a := BookFor(sv.books, r.ticker), Taken(sv, r);
    AsksIsFresh(sv, r);
    OrderTrades(sv, w, r);
    TradesOfRequest(w, r);
    var ts := TrueTrades(w, r);
    PartiesAre(r.side, r.orderId, SamplePrice(b, r.side, r.otype, r.price), ts);
    SubmitAddsOneId(b, r.orderId, r.side, r.otype, r.price, r.quantity);
    forall m | m in Makers(ts) ensures m in b.live {
      MakersAreLive(b, r.orderId, r.side, r.otype, r.price, r.quantity, m);
    }
    forall m | m in b.live && m !in Makers(ts) ensures m in a.book.live {
      if m !in a.book.live {
        OnlyMakersLeave(b, r.orderId, r.side, r.otype, r.price, r.quantity, m);
      }
    }
  }

  lemma ServedKeepsKnown(sv: Server, w: World, r: Request)
    requires Mirrors(sv, w) && WorldOk(w) && RegistryExact(sv) && r.NewOrder? && Asks(sv, r) && FateOf(sv, r).Served?
    ensures RestingIsKnown(Handle(sv, r))
  {
    hide Taken, Parties, FateOf, WorldOk, Conforms, Mirrors;
    var sv' := Handle(sv, r);
    ServedBook(sv, w, r);
    forall t, bot | RestsOn(sv', t, bot) ensures Lists(sv', t, bot) {
      if bot != r.orderId || t != r.ticker {
        ServedStillRests(sv, w, r, t, bot);
        assert Lists(sv, t, bot);
        RegisteredNumber(sv, w, sv.number[bot]);
        if t != r.ticker && RestsOn(sv, r.ticker, bot) {
          OneHome(sv, w, t, r.ticker, bot);
        }
      }
    }
  }

  lemma ServedStillRests(sv: Server, w: World, r: Request, t: string, bot: string)
    requires Mirrors(sv, w) && WorldOk(w) && r.NewOrder? && Asks(sv, r) && FateOf(sv, r).Served?
    requires RestsOn(Handle(sv, r), t, bot) && (bot != r.orderId || t != r.ticker)
    ensures RestsOn(sv, t, bot) && r.ticker !in sv.locked
  {
    hide Taken, Parties, WorldOk, Conforms, Mirrors, CleanedUp;
    ServedBook(sv, w, r);
  }

  lemma ServedKeepsResting(sv: Server, w: World, r: Request)
    requires Mirrors(sv, w) && WorldOk(w) && RegistryExact(sv) && r.NewOrder? && Asks(sv, r) && FateOf(sv, r).Served?
    ensures KnownRests(Handle(sv, r))
  {
    hide Taken, Parties, FateOf, WorldOk, Conforms, Mirrors;
    var sv' := Handle(sv, r);
    ServedBook(sv, w, r);
    forall n | n in sv'.registry && sv'.registry[n].ticker !in sv'.locked
      ensures RestsOn(sv', sv'.registry[n].ticker, sv'.registry[n].bot)
    {
      if n != sv.nextId {
        assert RestsOn(sv, sv.registry[n].ticker, sv.registry[n].bot);
      }
    }
  }

  /** A request that changes no book that can still be reached keeps the registry exact. */
  lemma IdleOrderKeeps(sv: Server, w: World, r: Request)
    requires Mirrors(sv, w) && RegistryExact(sv) && r.NewOrder? && Fresh(sv, r) && !FateOf(sv, r).Served?
    ensures RegistryExact(Handle(sv, r))
  {
    hide Taken, Mirrors;
    var sv' := Handle(sv, r);
    forall t, bot | RestsOn(sv', t, bot) ensures Lists(sv', t, bot) {
      assert RestsOn(sv, t, bot);
      assert Lists(sv, t, bot);
    }
    forall n | n in sv'.registry && sv'.registry[n].ticker !in sv'.locked
      ensures RestsOn(sv', sv'.registry[n].ticker, sv'.registry[n].bot)
    {
      assert RestsOn(sv, sv.registry[n].ticker, sv.registry[n].bot);
    }
  }

  lemma CancelKeepsExact(sv: Server, w: World, r: Request)
    requires Mirrors(sv, w) && RegistryExact(sv) && r.CancelRequest?
    ensures RegistryExact(Handle(sv, r))
  {
    if FateOf(sv, r).Served? {
      hide Mirrors, CancelOrder;
      var sv' := Handle(sv, r);
      var k := sv.registry[r.targetId];
      CancelDropsOneId(BookFor(sv.books, k.ticker), k.bot);
      RegisteredNumber(sv, w, r.targetId);
      forall t, bot | RestsOn(sv', t, bot) ensures Lists(sv', t, bot) {
        assert RestsOn(sv, t, bot);
        assert Lists(sv, t, bot);
      }
      forall n | n in sv'.registry && sv'.registry[n].ticker !in sv'.locked
        ensures RestsOn(sv', sv'.registry[n].ticker, sv'.registry[n].bot)
      {
        RegisteredNumber(sv, w, n);
        assert RestsOn(sv, sv.registry[n].ticker, sv.registry[n].bot);
      }
    }
  }

  lemma OneMoreKeepsExact(sv: Server, w: World, r: Request)
    requires Mirrors(sv, w) && WorldOk(w) && RegistryExact(sv) && Asks(sv, r)
    ensures RegistryExact(Handle(sv, r))
  {
    hide Mirrors, WorldOk, RestingIsKnown, KnownRests, Handle, FateOf, Conforms;
    if r.CancelRequest? {
      CancelKeepsExact(sv, w, r);
    } else if FateOf(sv, r).Served? {
      ServedKeepsKnown(sv, w, r);
      ServedKeepsResting(sv, w, r);
    } else {
      IdleOrderKeeps(sv, w, r);
    }
  }

  lemma BootIsExact()
    ensures RegistryExact(BOOT)
  {
    EmptyLive();
  }

  /** Throughout a run the registry lists exactly the resting orders of the tickers that are not locked. */
  lemma {:induction false} RegistryStaysExact(qs: seq<Asked>)
    requires AsksThroughout(qs)
    ensures RegistryExact(ServerAfter(qs))
  {
    hide RegistryExact, Mirrors, Asks, Handle, Exchanges, WorldOk, After, Sane;
    if qs == [] {
      BootIsExact();
    } else {
      var front := qs[..|qs| - 1];
      RegistryStaysExact(front);
      SampleIsHonest(front);
      SaneWorldOk(Exchanges(front));
      OneMoreKeepsExact(ServerAfter(front), After(Exchanges(front)), qs[|qs| - 1].request);
    }
  }

  // ----- what a cancel gets -----

  /**
   A cancel that names a resting order of a ticker that is not locked is answered 200; the order rests no more, its id is
   known no more, every other order stays where it is, and the same cancel once more is answered 404.
   */
  lemma CancelOfRestingIsServed(qs: seq<Asked>, t: string, bot: string, text: string, at: int)
    requires AsksThroughout(qs)
    requires t !in ServerAfter(qs).locked && bot in BookFor(ServerAfter(qs).books, t).live
    ensures bot in ServerAfter(qs).number
    ensures var sv := ServerAfter(qs);
      var n := sv.number[bot];
      var cancel := CancelRequest(n, text);
      var sv' := Handle(sv, cancel);
      && n in sv.registry && sv.registry[n] == Known(bot, t)
      && Reply(sv, cancel, at) == Answered(200, true, n, [])
      && sv'.registry == sv.registry - {n}
      && BookFor(sv'.books, t).live.Keys == BookFor(sv.books, t).live.Keys - {bot}
      && (forall u :: u != t ==> BookFor(sv'.books, u) == BookFor(sv.books, u))
      && Reply(sv', cancel, at) == Answered(404, false, 0, [])
  {
    hide AsksThroughout, ServerAfter, KnownRests, CancelOrder;
    RegistryStaysExact(qs);
    var sv := ServerAfter(qs);
    assert RestsOn(sv, t, bot);
    assert Lists(sv, t, bot);
    CancelDropsOneId(BookFor(sv.books, t), bot);
  }

  /** No other cancel is answered 200: one waits for a locked ticker, or names no resting order and is answered 404. */
  lemma CancelIsServedIff(qs: seq<Asked>, n: nat, text: string, at: int)
    requires AsksThroughout(qs)
    ensures var sv := ServerAfter(qs);
      Reply(sv, CancelRequest(n, text), at) == Answered(200, true, n, []) <==>
        exists t, bot :: t !in sv.locked && bot in BookFor(sv.books, t).live && bot in sv.number && sv.number[bot] == n
  {
    hide AsksThroughout, ServerAfter, RestingIsKnown, Exchanges, Mirrors, After, Sane;
    RegistryStaysExact(qs);
    SampleIsHonest(qs);
    var sv := ServerAfter(qs);
    if Reply(sv, CancelRequest(n, text), at) == Answered(200, true, n, []) {
      RegisteredNumber(sv, After(Exchanges(qs)), n);
      assert RestsOn(sv, sv.registry[n].ticker, sv.registry[n].bot);
    }
    if t, bot :| t !in sv.locked && bot in BookFor(sv.books, t).live && bot in sv.number && sv.number[bot] == n {
      CancelOfRestingIsServed(qs, t, bot, text, at);
    }
  }

  // ----- what an order's answer says -----

  lemma MakerRests(b: Book, r: Request, i: nat)
    requires Sound(b) && LiveExact(b) && r.NewOrder?
    requires i < |SubmitTrades(b, r.orderId, r.side, r.otype, r.price, r.quantity)|
    ensures var t := SubmitTrades(b, r.orderId, r.side, r.otype, r.price, r.quantity)[i];
      t.maker in b.live && b.live[t.maker].price == t.makerPrice
  {
    hide Sweep, InRank;
    var opp := b.Of(Opposite(r.side));
    SweepTrades(opp, r.side, r.otype.Market?, r.price, Band(opp, r.otype.Market?, r.price), r.quantity, i);
    assert opp[i] in opp;
  }

  lemma KnownMaker(sv: Server, t: string, bot: string)
    requires RegistryExact(sv) && t !in sv.locked && bot in BookFor(sv.books, t).live
    ensures bot in sv.number
  {
    assert RestsOn(sv, t, bot);
    assert Lists(sv, t, bot);
  }

  lemma SameBook(sv: Server, w: World, r: Request)
    requires Mirrors(sv, w) && r.NewOrder? && FateOf(sv, r).Served?
    ensures BookFor(sv.books, r.ticker) == BookFor(w.books, r.ticker) && r.ticker !in sv.locked
  {
    hide Taken;
  }

  /**
   The answer to a served order lists the golden trades one by one: its own new id on its side, the resting order's id on
   the other, the quantity, and the ask's price, which is the resting price for a buy and its own limit for a sell.
   */
  lemma AnswerIsOwnTrades(qs: seq<Asked>, r: Request, at: int, i: nat)
    requires AsksThroughout(qs) && r.NewOrder? && Fresh(ServerAfter(qs), r) && FateOf(ServerAfter(qs), r).Served?
    requires var b := BookFor(ServerAfter(qs).books, r.ticker);
      i < |SubmitTrades(b, r.orderId, r.side, r.otype, r.price, r.quantity)|
    ensures var sv := ServerAfter(qs);
      var b := BookFor(sv.books, r.ticker);
      var ts := SubmitTrades(b, r.orderId, r.side, r.otype, r.price, r.quantity);
      var answer := Reply(sv, r, at);
      var t := ts[i];
      && answer.Answered? && answer.status == 200 && answer.parsed && answer.orderId == sv.nextId
      && |answer.trades| == |ts|
      && t.maker in sv.number && t.maker in b.live
      && answer.trades[i].qty == t.qty && answer.trades[i].at == at
      && (r.side.Buy? ==>
            answer.trades[i].buyOrderId == sv.nextId && answer.trades[i].sellOrderId == sv.number[t.maker]
            && answer.trades[i].price == b.live[t.maker].price)
      && (r.side.Sell? ==>
            answer.trades[i].sellOrderId == sv.nextId && answer.trades[i].buyOrderId == sv.number[t.maker]
            && (!r.otype.Market? ==> answer.trades[i].price == r.price))
  {
    hide AsksThroughout, ServerAfter, Exchanges, Mirrors, After, Sane, Sound, LiveExact, SubmitTrades, AsCrosses, WorldOk,
         RestingIsKnown, KnownRests, Taken;
    RegistryStaysExact(qs);
    SampleIsHonest(qs);
    var (sv, w) := (ServerAfter(qs), After(Exchanges(qs)));
    SaneWorldOk(Exchanges(qs));
    OrderTrades(sv, w, r);
    TradesOfRequest(w, r);
    SameBook(sv, w, r);
    var b := BookFor(sv.books, r.ticker);
    var ts := SubmitTrades(b, r.orderId, r.side, r.otype, r.price, r.quantity);
    CrossesAt(r.side, r.orderId, SamplePrice(b, r.side, r.otype, r.price), ts, i);
    MakerRests(b, r, i);
    KnownMaker(sv, r.ticker, ts[i].maker);
  }

  /** An order of a kind the server does not know is answered 400 and leaves no trace but its name. */
  lemma UnknownKindIsRefused(sv: Server, r: Request, at: int)
    requires r.NewOrder? && r.otype.OtherType?
    ensures Reply(sv, r, at) == Answered(400, false, 0, [])
    ensures Handle(sv, r) == sv.(number := sv.number[r.orderId := 0])
  {
  }

  /** How many orders of known kinds were asked for. */
  function KnownOrders(qs: seq<Asked>): nat {
    if qs == [] then 0
    else
      var r := qs[|qs| - 1].request;
      KnownOrders(qs[..|qs| - 1]) + (if r.NewOrder? && !r.otype.OtherType? then 1 else 0)
  }

  /** Each of them has taken the next of the server's ids, answered or not, and nothing else takes one. */
  lemma {:induction false} IdsCountOrders(qs: seq<Asked>)
    ensures ServerAfter(qs).nextId == 1 + KnownOrders(qs)
  {
    hide Taken, CleanedUp;
    if qs != [] {
      IdsCountOrders(qs[..|qs| - 1]);
    }
  }
}
