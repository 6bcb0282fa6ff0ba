/**
 The limit of the sample server. A market order it leaves resting is not in the golden book, and one more order is
 enough for the checker to find out.
 */
module MarketRemainder {
  import opened MarketTypes
  import opened RankedBook
  import opened BookLaws
  import opened Differential
  import opened Writer
  import opened ReplaySpec
  import opened ReplayLaws
  import opened Contestant
  import opened Soundness
  import opened LossyRuns
  import opened HiddenCancel
  import opened OrderlyRuns
  import opened ReferenceSpec
  import opened EnginesAgree
  import opened SampleServer

  // ----- on one book -----

  function Left(b: Book, s: Side, limit: int, qty: int): int {
    PlainSweep(b, s, SamplePrice(b, s, Market, limit), qty).left
  }

  /** The remainder rests like that of a limit order at the worst opposing price, ahead of its whole side. */
  lemma RemainderRests(b: Book, id: string, s: Side, limit: int, qty: int)
    requires Sound(b) && LiveExact(b) && id !in b.live && 0 < qty && !SampleConforms(b, s, Market, limit, qty)
    ensures var w := SamplePrice(b, s, Market, limit);
      && AddOrder(b, id, s, Market, limit, qty).book == Submit(b, id, s, Limit, w, qty)
      && 0 < Left(b, s, limit, qty)
      && Submit(b, id, s, Limit, w, qty).Of(s) == [Resting(id, w, Left(b, s, limit, qty))] + b.Of(s)
  {
    hide Sweep, Sound, LiveExact, InsertThenCross, Depth, AsCrosses, Insert;
    var opp := b.Of(Opposite(s));
    var w := SamplePrice(b, s, Market, limit);
    WorstAccepted(b, s);
    MarketIsLimit(opp, s, limit, w, qty, id);
    InsertThenCrossIsMatchThenRest(b, id, s, w, qty);
    SideFacts(b, s);
    SweepLeavesShortfall(opp, s, true, limit, w, qty);
    SoundIsUncrossed(b);
    NewcomerLeads(b, id, s, w, Left(b, s, limit, qty));
  }

  lemma GoldenKeepsNone(b: Book, id: string, s: Side, limit: int, qty: int, next: string)
    requires Sound(b) && b.Of(Opposite(s)) != []
    ensures SubmitTrades(Submit(b, id, s, Market, limit, qty), next, Opposite(s), Limit, SamplePrice(b, s, Market, limit), 1) == []
  {
    hide Sweep, Submit, Sound;
    var g := Submit(b, id, s, Market, limit, qty);
    MarketNeverRests(b, id, s, limit, qty);
    OwnSideIsApart(b, s, limit);
    var w := SamplePrice(b, s, Market, limit);
    NothingSwept(g.Of(s), Opposite(s), w, 1);
  }

  lemma OwnSideIsApart(b: Book, s: Side, limit: int)
    requires Sound(b) && b.Of(Opposite(s)) != []
    ensures b.Of(s) != [] ==> !Crosses(Opposite(s), false, SamplePrice(b, s, Market, limit), b.Of(s)[0].price)
  {
    WorstAccepted(b, s);
  }

  lemma NothingSwept(opp: seq<Resting>, s: Side, limit: int, qty: int)
    requires opp != [] ==> !Crosses(s, false, limit, opp[0].price)
    ensures Sweep(opp, s, false, limit, limit, qty).trades == []
  {
  }

  lemma HeadIsSwept(r: Resting, own: seq<Resting>, s: Side)
    requires 0 < r.qty
    ensures Sweep([r] + own, s, false, r.price, r.price, 1).trades == [Trade(r.id, 1, r.price, r.price, false)]
  {
    assert ([r] + own)[1..] == own;
    NothingLeftNoTrade(own, s, r.price);
  }

  lemma NothingLeftNoTrade(own: seq<Resting>, s: Side, price: int)
    ensures Sweep(own, s, false, price, price, 0).trades == []
  {
  }

  /** The order that finds the remainder out: one unit against it. */
  function Touch(b: Book, s: Side, limit: int, id: string, ticker: string): Request {
    NewOrder(id, Opposite(s), Limit, ticker, SamplePrice(b, s, Market, limit), 1)
  }

  /** The sample server trades it with the remainder; the golden model does not trade it at all. */
  lemma TouchTrades(b: Book, id: string, s: Side, limit: int, qty: int, next: string)
    requires Sound(b) && LiveExact(b) && id !in b.live && 0 < qty && !SampleConforms(b, s, Market, limit, qty)
    requires var b' := AddOrder(b, id, s, Market, limit, qty).book; next !in b'.live
    ensures var w := SamplePrice(b, s, Market, limit);
      var a := AddOrder(AddOrder(b, id, s, Market, limit, qty).book, next, Opposite(s), Limit, w, 1);
      a.trades == AsCrosses(Opposite(s), next, w, [Trade(id, 1, w, w, false)]) && !a.stuck
    ensures SubmitTrades(Submit(b, id, s, Market, limit, qty), next, Opposite(s), Limit, SamplePrice(b, s, Market, limit), 1) == []
  {
    hide Sweep, Sound, LiveExact, Submit, AddOrder, AsCrosses, SampleConforms;
    var w := SamplePrice(b, s, Market, limit);
    var b' := Submit(b, id, s, Limit, w, qty);
    RemainderRests(b, id, s, limit, qty);
    SubmitKeepsSound(b, id, s, Limit, w, qty);
    SubmitKeepsLive(b, id, s, Limit, w, qty);
    PlainOrder(b', next, Opposite(s), Limit, w, 1);
    HeadIsSwept(Resting(id, w, Left(b, s, limit, qty)), b.Of(s), Opposite(s));
    MisfitFacesOrders(b, s, limit, qty);
    GoldenKeepsNone(b, id, s, limit, qty, next);
  }

  lemma MisfitFacesOrders(b: Book, s: Side, limit: int, qty: int)
    requires !SampleConforms(b, s, Market, limit, qty)
    ensures b.Of(Opposite(s)) != []
  {
  }

  // ----- in a run -----

  lemma OneMore(qs: seq<Asked>, q: Asked)
    ensures ServerAfter(qs + [q]) == Handle(ServerAfter(qs), q.request)
    ensures Exchanges(qs + [q]) == Exchanges(qs) + [ExchangeFor(ServerAfter(qs), q)]
    ensures AsksThroughout(qs + [q]) <==> AsksThroughout(qs) && Asks(ServerAfter(qs), q.request)
  {
    hide Handle, ExchangeFor, Asks;
    assert (qs + [q])[..|qs|] == qs;
  }

  /** The last order need not conform: its answer is honest all the same. */
  lemma LastIsHonest(qs: seq<Asked>, q: Asked)
    requires AsksThroughout(qs) && Fresh(ServerAfter(qs), q.request)
    ensures Sane(Exchanges(qs + [q]))
    ensures After(Exchanges(qs + [q])) == Next(After(Exchanges(qs)), ExchangeFor(ServerAfter(qs), q))
  {
    hide AsksThroughout, Fresh, Honest, HidesCancel, Mirrors, WorldOk, ExchangeFor, ServerAfter, Exchanges, After,
         Next, Sane,
         FateOf, OutcomeOf;
    SampleIsHonest(qs);
    SaneWorldOk(Exchanges(qs));
    OneMore(qs, q);
    OneMoreIsHonest(ServerAfter(qs), After(Exchanges(qs)), q);
    SaneGrows(Exchanges(qs), ExchangeFor(ServerAfter(qs), q));
  }

  /** A run of conforming requests is safe even if the last of them does not conform. */
  lemma LastIsSafe(qs: seq<Asked>, q: Asked, submission: string)
    requires AsksThroughout(qs) && Fresh(ServerAfter(qs), q.request)
    ensures NeverConvicted(Exchanges(qs + [q]), submission)
  {
    hide AsksThroughout, Fresh, Exchanges, HonestRun, NoHiddenCancel, NeverConvicted, ServerAfter, After, Next,
         ExchangeFor;
    LastIsHonest(qs, q);
    OpenIsNeverConvicted(Exchanges(qs + [q]), submission);
  }

  lemma FreshIsOrderly(sv: Server, w: World, q: Asked)
    requires NumbersAgree(sv, w) && w.used <= sv.number.Keys && q.request.NewOrder? && Fresh(sv, q.request)
    requires FateOf(sv, q.request).Served?
    ensures Orderly(w, ExchangeFor(sv, q)) && ExchangeFor(sv, q).Result().Ok?
  {
    hide Taken, AnswerOf;
  }

  /** The reply to the touching order lists its one trade, with the remainder. */
  lemma TouchReply(sv: Server, w: World, q: Asked, bot: string, price: int)
    requires NumbersAgree(sv, w) && q.request.NewOrder? && FateOf(sv, q.request).Served?
    requires q.request.orderId !in sv.number && bot in sv.number && sv.number[bot] != 0
    requires Taken(sv, q.request).trades
          == AsCrosses(q.request.side, q.request.orderId, price, [Trade(bot, 1, price, price, false)])
    ensures var y := ExchangeFor(sv, q);
      ResolveAll(Next(w, y), y.ServerId(), TradesOf(y.attempt.response))
        == [ObservedFill(bot, true, sv.number[bot], 1, price)]
  {
    hide Taken, Next, AnswerOf;
    var r := q.request;
    var y := ExchangeFor(sv, q);
    var number := sv.number[r.orderId := sv.nextId];
    var t := Trade(bot, 1, price, price, false);
    assert AsCrosses(r.side, r.orderId, price, [t]) == [AsCross(r.side, r.orderId, price, t)] by {
      assert [t][1..] == [];
    }
    OrderOnFile(sv, w, q);
    OneTrade(number, AsCross(r.side, r.orderId, price, t), q.at);
    var ts := TradesOf(y.attempt.response);
    assert |ts| == 1 && MatchedId(ts[0], y.ServerId()) == sv.number[bot];
    OneResolved(Next(w, y), y.ServerId(), ts);
  }

  lemma OneTrade(number: map<string, nat>, c: CrossTrade, at: int)
    ensures AnswerOf(number, [c], at)
         == [ParsedTrade(NumberOf(number, c.bidId), NumberOf(number, c.askId), c.askPrice, c.qty, at)]
  {
  }

  lemma OneResolved(w: World, serverId: nat, ts: seq<ParsedTrade>)
    requires |ts| == 1
    ensures ResolveAll(w, serverId, ts) == [Resolve(w, serverId, ts[0])]
  {
    assert ts[..0] == [] && ResolveAll(w, serverId, ts[..0]) == [];
  }

  lemma ForeignFillDisagrees(w: World, f: ObservedFill)
    requires f.makerKnown && f.makerBot in w.home && w.home[f.makerBot] !in w.dirty
    ensures KnownMakers(w, [f]) && !Agrees([], [f])
  {
    assert f in [f];
  }

  lemma FreshNotInBook(sv: Server, w: World, r: Request, next: string)
    requires Mirrors(sv, w) && WorldOk(w) && r.NewOrder? && next !in sv.number && next != r.orderId
    ensures var b := BookFor(w.books, r.ticker);
      && next !in b.live
      && next !in Submit(b, r.orderId, r.side, Limit, SamplePrice(b, r.side, Market, r.price), r.quantity).live
  {
    hide Submit, BooksOk, NumbersAgree, RegistryAgrees;
    var b := BookFor(w.books, r.ticker);
    HomelessIsNotLive(w, r.ticker, next);
    SubmitAddsOneId(b, r.orderId, r.side, Limit, SamplePrice(b, r.side, Market, r.price), r.quantity);
  }

  /** The order touches the remainder `q` leaves behind. */
  predicate Touches(sv: Server, q: Asked, next: Asked) {
    && q.request.NewOrder? && next.request.NewOrder?
    && next.request == Touch(BookFor(sv.books, q.request.ticker), q.request.side, q.request.price, next.request.orderId,
                             q.request.ticker)
  }

  /** A market order is served and leaves a remainder. */
  predicate LeavesRemainder(sv: Server, r: Request) {
    r.NewOrder? && r.otype.Market? && Fresh(sv, r) && !Conforms(sv, r)
  }

  lemma TouchOnServer(sv: Server, w: World, q: Asked, next: Asked)
    requires Mirrors(sv, w) && WorldOk(w) && LeavesRemainder(sv, q.request) && Touches(sv, q, next)
    requires next.request.orderId !in Handle(sv, q.request).number
    ensures var r, sv1, w1 := q.request, Handle(sv, q.request), Next(w, ExchangeFor(sv, q));
      var price := SamplePrice(BookFor(sv.books, r.ticker), r.side, Market, r.price);
      && Taken(sv1, next.request).trades
           == AsCrosses(next.request.side, next.request.orderId, price, [Trade(r.orderId, 1, price, price, false)])
      && FateOf(sv1, next.request).Served? && TrueTrades(w1, next.request) == []
      && r.orderId in sv1.number && sv1.number[r.orderId] != 0 && r.ticker !in w.dirty
  {
    hide AddOrder, Submit, SubmitTrades, SampleConforms, Sound, LiveExact, NumbersAgree, RegistryAgrees, HomesOk,
         BooksOk,
         AsCrosses, Next, ExchangeFor;
    var r := q.request;
    var b := BookFor(w.books, r.ticker);
    var id := next.request.orderId;
    OrderTrades(sv, w, r);
    NumbersPositive(sv, w);
    OrderOnFile(sv, w, q);
    RemainderRests(b, r.orderId, r.side, r.price, r.quantity);
    FreshNotInBook(sv, w, r, id);
    TouchTrades(b, r.orderId, r.side, r.price, r.quantity, id);
  }

  lemma MirrorsNumbers(sv: Server, w: World)
    requires Mirrors(sv, w)
    ensures NumbersAgree(sv, w) && w.used <= sv.number.Keys && sv.locked == w.dirty
  {
  }

  lemma RemainderIsNew(sv: Server, r: Request)
    requires LeavesRemainder(sv, r)
    ensures r.NewOrder? && Fresh(sv, r) && r.orderId !in sv.number && r.ticker != "" && FateOf(sv, r).Served?
  {
    hide Taken, SampleConforms;
  }

  /** The contestant model has the market order on file, on a ticker without losses. */
  lemma RemainderOnFile(sv: Server, w: World, q: Asked)
    requires q.request.NewOrder? && FateOf(sv, q.request).Served? && 0 < sv.nextId && q.request.ticker !in w.dirty
    ensures var w1 := Next(w, ExchangeFor(sv, q));
      q.request.orderId in w1.home && w1.home[q.request.orderId] == q.request.ticker && w1.dirty == w.dirty
  {
    hide Next, ExchangeFor, Taken;
    OrderOnFile(sv, w, q);
  }

  lemma HomeStays(w: World, y: Exchange, bot: string)
    requires Orderly(w, y) && y.Result().Ok? && y.attempt.request.NewOrder? && bot in w.home && bot != y.attempt.request.orderId
    ensures bot in Next(w, y).home && Next(w, y).home[bot] == w.home[bot] && Next(w, y).dirty == w.dirty
  {
    hide Next;
    OrderNext(w, y);
    NextFacts(w, y);
  }

  /** The touching order's answer names the remainder, which the golden model has cancelled. */
  lemma TouchLies(xs: seq<Exchange>, sv: Server, q: Asked, next: Asked)
    requires Mirrors(sv, After(xs)) && WorldOk(After(xs)) && LeavesRemainder(sv, q.request) && Touches(sv, q, next)
    requires next.request.orderId !in Handle(sv, q.request).number && Fresh(Handle(sv, q.request), next.request)
    ensures next.request.NewOrder? && FateOf(Handle(sv, q.request), next.request).Served?
    ensures var xs1, y := xs + [ExchangeFor(sv, q)], ExchangeFor(Handle(sv, q.request), next);
      && Orderly(After(xs1), y) && y.Result().Ok? && y.attempt.request == next.request
      && next.request.ticker !in After(xs1).dirty
      && KnownMakers(After(xs1 + [y]), LastFills(xs1, y)) && !Agrees(TrueTrades(After(xs1), next.request), LastFills(xs1, y))
  {
    hide Mirrors, WorldOk, Fresh, Conforms, Handle, After, Next, NumbersAgree, Taken, AsCrosses, TrueTrades, Agrees,
         KnownMakers,
         ResolveAll, Orderly, OutcomeOf, TradesOf, SamplePrice, FateOf, LeavesRemainder;
    var w, r := After(xs), q.request;
    var x, sv1 := ExchangeFor(sv, q), Handle(sv, q.request);
    var w1 := Next(w, x);
    var y := ExchangeFor(sv1, next);
    Snoc(xs, x);
    Snoc(xs + [x], y);
    MirrorsNumbers(sv, w);
    NumbersPositive(sv, w);
    RemainderIsNew(sv, r);
    OrderKeepsNumbers(sv, w, q);
    TouchOnServer(sv, w, q, next);
    RemainderOnFile(sv, w, q);
    FreshIsOrderly(sv1, w1, next);
    var price := SamplePrice(BookFor(sv.books, r.ticker), r.side, Market, r.price);
    TouchReply(sv1, w1, next, r.orderId, price);
    HomeStays(w1, y, r.orderId);
    ForeignFillDisagrees(Next(w1, y), ObservedFill(r.orderId, true, sv1.number[r.orderId], 1, price));
  }

  lemma TouchIsFresh(sv: Server, b: Book, s: Side, limit: int, id: string, ticker: string)
    requires id != "" && id !in sv.number && ticker != ""
    ensures var r := Touch(b, s, limit, id, ticker); r.NewOrder? && r.orderId == id && Fresh(sv, r)
  {
  }

  /** The complete stream of this conversation is judged incorrect, however it is permuted and duplicated. */
  ghost predicate Convicted(qs: seq<Asked>, submission: string) {
    forall endAt, received ::
      SameEvents(received, Stream(submission, Attempts(Exchanges(qs)), endAt)) ==> Finalize(received) == Incorrect
  }

  lemma TouchConvicts(qs: seq<Asked>, q: Asked, next: Asked, submission: string)
    requires AsksThroughout(qs) && LeavesRemainder(ServerAfter(qs), q.request) && Touches(ServerAfter(qs), q, next)
    requires var sv1 := Handle(ServerAfter(qs), q.request); next.request.orderId !in sv1.number && Fresh(sv1, next.request)
    ensures FateOf(ServerAfter(qs + [q]), next.request).Served? && Convicted(qs + [q] + [next], submission)
  {
    hide AsksThroughout, Fresh, Conforms, HonestRun, NoHiddenCancel, ClearOfLosses, Mirrors, WorldOk, ServerAfter,
         Exchanges,
         Handle, ExchangeFor, After, Next, Orderly, Agrees, KnownMakers, LastFills, TrueTrades, Finalize, Stream, SameEvents,
         Touches, FateOf, LeavesRemainder, OutcomeOf;
    var xs, sv := Exchanges(qs), ServerAfter(qs);
    SampleIsHonest(qs);
    SaneWorldOk(xs);
    RemainderIsNew(sv, q.request);
    LastIsHonest(qs, q);
    OneMore(qs, q);
    TouchLies(xs, sv, q, next);
    OneMore(qs + [q], next);
    var xs1, y := xs + [ExchangeFor(sv, q)], ExchangeFor(Handle(sv, q.request), next);
    forall endAt, received | SameEvents(received, Stream(submission, Attempts(xs1 + [y]), endAt))
      ensures Finalize(received) == Incorrect
    {
      FirstLieConvicts(xs1, y, submission, endAt, received);
    }
  }

  /**
   After any run of conforming requests, a market order left with a remainder exposes the sample server: some next
   request makes the complete stream read as incorrect.
   */
  lemma MarketRemainderConvicts(qs: seq<Asked>, q: Asked, submission: string) returns (next: Asked)
    requires AsksThroughout(qs) && LeavesRemainder(ServerAfter(qs), q.request)
    ensures Fresh(ServerAfter(qs + [q]), next.request) && FateOf(ServerAfter(qs + [q]), next.request).Served?
    ensures Convicted(qs + [q] + [next], submission)
  {
    hide AsksThroughout, Fresh, ServerAfter, Exchanges, Handle, Convicted, Touch, FateOf, LeavesRemainder;
    var sv, r := ServerAfter(qs), q.request;
    OneMore(qs, q);
    RemainderIsNew(sv, r);
    var sv1 := Handle(sv, r);
    var id := FreshString(sv1.number.Keys);
    next := Asked(Touch(BookFor(sv.books, r.ticker), r.side, r.price, id, r.ticker), 0);
    TouchIsFresh(sv1, BookFor(sv.books, r.ticker), r.side, r.price, id, r.ticker);
    TouchConvicts(qs, q, next, submission);
  }

  // ----- exactly the market remainders -----

  /** Whatever fresh request comes next, no part of the run's stream is judged incorrect. */
  ghost predicate NextIsSafe(qs: seq<Asked>, submission: string) {
    forall next: Asked :: Fresh(ServerAfter(qs), next.request) ==> NeverConvicted(Exchanges(qs + [next]), submission)
  }

  /** Only a market order can be served and yet leave another book than the golden one. */
  lemma OnlyMarketMisfits(sv: Server, w: World, r: Request)
    requires Mirrors(sv, w) && WorldOk(w) && Fresh(sv, r) && !Conforms(sv, r)
    ensures LeavesRemainder(sv, r)
  {
    hide Sound, LiveExact, AddOrder, Submit, NumbersAgree, RegistryAgrees, Depth;
    var b := BookFor(w.books, r.ticker);
    OrderTrades(sv, w, r);
    if r.otype.FillAndKill? {
      FillAndKillOrder(b, r.orderId, r.side, r.price, r.quantity);
    }
  }

  /**
   After a run of conforming requests and any one more, every next request is safe exactly when that one was not a market
   order left with a remainder.
   */
  lemma NextIsSafeIffConforms(qs: seq<Asked>, q: Asked, submission: string)
    requires AsksThroughout(qs) && Fresh(ServerAfter(qs), q.request)
    ensures NextIsSafe(qs + [q], submission) <==> Conforms(ServerAfter(qs), q.request)
  {
    hide AsksThroughout, Fresh, Conforms, HonestRun, NoHiddenCancel, ClearOfLosses, Mirrors, WorldOk, ServerAfter,
         Exchanges,
         Handle, ExchangeFor, After, Convicted, NeverConvicted, FateOf, LeavesRemainder;
    OneMore(qs, q);
    if Conforms(ServerAfter(qs), q.request) {
      AsksBoth(ServerAfter(qs), q.request);
      forall next: Asked | Fresh(ServerAfter(qs + [q]), next.request)
        ensures NeverConvicted(Exchanges(qs + [q] + [next]), submission)
      {
        LastIsSafe(qs + [q], next, submission);
      }
    } else {
      SampleIsHonest(qs);
      SaneWorldOk(Exchanges(qs));
      OnlyMarketMisfits(ServerAfter(qs), After(Exchanges(qs)), q.request);
      var next := MarketRemainderConvicts(qs, q, submission);
      ConvictedIsUnsafe(qs + [q] + [next], submission);
    }
  }

  lemma AsksBoth(sv: Server, r: Request)
    requires Fresh(sv, r) && Conforms(sv, r)
    ensures Asks(sv, r)
  {
  }

  lemma ConvictedIsUnsafe(qs: seq<Asked>, submission: string)
    requires Convicted(qs, submission)
    ensures !NeverConvicted(Exchanges(qs), submission)
  {
    hide Finalize, Stream, Exchanges, SameEvents;
    WholeStreamConvicts(Exchanges(qs), submission);
  }
}
