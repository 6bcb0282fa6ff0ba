/**
 The sample server as the load generator meets it: one engine per ticker, a counter for ids, a registry for cancels. Each
 connection has its own thread, so an engine that has locked itself up blocks the requests for its ticker and no others.
 */
module SampleServer {
  import opened MarketTypes
  import opened RankedBook
  import opened BookLaws
  import opened Differential
  import opened Writer
  import opened ReplaySpec
  import opened ReplayLaws
  import opened Contestant
  import opened Soundness
  import opened SoundnessTheorems
  import opened LossyRuns
  import opened ReferenceSpec
  import opened EnginesAgree

  /** Where the server will look for an order it may be asked to cancel. */
  datatype Known = Known(bot: string, ticker: string)

  /**
   `number` gives the server's own id of the order a bot calls `bot`, or 0 if that order never got into a book; `locked`
   are the tickers whose engine holds its mutex for good.
   */
  datatype Server = Server(
    books: map<string, Book>,
    number: map<string, nat>,
    registry: map<nat, Known>,
    nextId: nat,
    locked: set<string>)

  const BOOT := Server(map[], map[], map[], 1, {})

  function NumberOf(number: map<string, nat>, bot: string): nat {
    if bot in number then number[bot] else 0
  }

  /** The `trades` array of an answer: both parties and the ask's price. */
  function AnswerOf(number: map<string, nat>, cs: seq<CrossTrade>, at: int): seq<ParsedTrade> {
    seq(|cs|, i requires 0 <= i < |cs| =>
      ParsedTrade(NumberOf(number, cs[i].bidId), NumberOf(number, cs[i].askId), cs[i].askPrice, cs[i].qty, at))
  }

  function Parties(cs: seq<CrossTrade>): set<string> {
    (set c | c in cs :: c.bidId) + (set c | c in cs :: c.askId)
  }

  /** Forget the orders of this exchange that no longer rest. */
  function CleanedUp(registry: map<nat, Known>, touched: set<string>, b: Book): map<nat, Known> {
    map n | n in registry && (registry[n].bot in touched ==> registry[n].bot in b.live) :: registry[n]
  }

  function Taken(sv: Server, r: Request): Added
    requires r.NewOrder?
  {
    AddOrder(BookFor(sv.books, r.ticker), r.orderId, r.side, r.otype, r.price, r.quantity)
  }

  /**
   What becomes of a request: it is refused, waits for ever on a locked book, changes its book and locks it, or is served
   and answered.
   */
  datatype Fate = Refused | Waits | Locks | Served

  function FateOf(sv: Server, r: Request): Fate {
    match r
    case NewOrder(_, _, otype, ticker, _, _) =>
      if otype.OtherType? then Refused
      else if ticker in sv.locked then Waits
      else if Taken(sv, r).stuck then Locks
      else Served
    case CancelRequest(target, _) =>
      if target !in sv.registry then Refused
      else if sv.registry[target].ticker in sv.locked then Waits
      else Served
  }

  function HandleOrder(sv: Server, r: Request): Server
    requires r.NewOrder?
  {
    match FateOf(sv, r)
    case Refused => sv.(number := sv.number[r.orderId := 0])
    case Waits => sv.(number := sv.number[r.orderId := 0], nextId := sv.nextId + 1)
    case Locks =>
      Server(sv.books[r.ticker := Taken(sv, r).book], sv.number[r.orderId := sv.nextId], sv.registry, sv.nextId + 1,
             sv.locked + {r.ticker})
    case Served =>
      var a := Taken(sv, r);
      var registry := sv.registry[sv.nextId := Known(r.orderId, r.ticker)];
      Server(sv.books[r.ticker := a.book], sv.number[r.orderId := sv.nextId],
             CleanedUp(registry, {r.orderId} + Parties(a.trades), a.book), sv.nextId + 1, sv.locked)
  }

  function HandleCancel(sv: Server, r: Request): Server
    requires r.CancelRequest?
  {
    if !FateOf(sv, r).Served? then sv
    else
      var k := sv.registry[r.targetId];
      sv.(books := sv.books[k.ticker := CancelOrder(BookFor(sv.books, k.ticker), k.bot)],
          registry := sv.registry - {r.targetId})
  }

  function Handle(sv: Server, r: Request): Server {
    if r.NewOrder? then HandleOrder(sv, r) else HandleCancel(sv, r)
  }

  /** What the writer receives back; it gives up on an answer that does not come. */
  function Reply(sv: Server, r: Request, at: int): Response {
    match FateOf(sv, r)
    case Refused => Answered(if r.NewOrder? then 400 else 404, false, 0, [])
    case Waits => TimedOut
    case Locks => TimedOut
    case Served =>
      if r.NewOrder? then
        Answered(200, true, sv.nextId, AnswerOf(sv.number[r.orderId := sv.nextId], Taken(sv, r).trades, at))
      else Answered(200, true, r.targetId, [])
  }

  function Applied(sv: Server, r: Request): bool {
    FateOf(sv, r).Served? || FateOf(sv, r).Locks?
  }

  datatype Asked = Asked(request: Request, at: int)

  function ServerAfter(qs: seq<Asked>): Server {
    if qs == [] then BOOT else Handle(ServerAfter(qs[..|qs| - 1]), qs[|qs| - 1].request)
  }

  function ExchangeFor(sv: Server, q: Asked): Exchange {
    Exchange(Attempt(q.request, Reply(sv, q.request, q.at), q.at), Applied(sv, q.request), sv.nextId)
  }

  /** The whole conversation. */
  function Exchanges(qs: seq<Asked>): seq<Exchange> {
    if qs == [] then []
    else Exchanges(qs[..|qs| - 1]) + [ExchangeFor(ServerAfter(qs[..|qs| - 1]), qs[|qs| - 1])]
  }

  /** A request of a well-behaved bot: a cancel, or an order with a fresh id, a named ticker and a positive quantity. */
  predicate Fresh(sv: Server, r: Request) {
    r.NewOrder? ==> r.orderId != "" && r.ticker != "" && r.orderId !in sv.number && 0 < r.quantity
  }

  /** If it is an order that is served, the sample engine gets it right; only a market remainder is not. */
  predicate Conforms(sv: Server, r: Request) {
    r.NewOrder? && FateOf(sv, r).Served? ==>
      SampleConforms(BookFor(sv.books, r.ticker), r.side, r.otype, r.price, r.quantity)
  }

  predicate Asks(sv: Server, r: Request) {
    Fresh(sv, r) && Conforms(sv, r)
  }

  predicate AsksThroughout(qs: seq<Asked>) {
    qs == [] || (AsksThroughout(qs[..|qs| - 1]) && Asks(ServerAfter(qs[..|qs| - 1]), qs[|qs| - 1].request))
  }

  // ----- the server is an honest contestant -----

  /** The server's view and the contestant model's: same books but for locked tickers, same ids both ways. */
  ghost predicate Mirrors(sv: Server, w: World) {
    && (forall t :: t !in sv.locked ==> BookFor(sv.books, t) == BookFor(w.books, t))
    && sv.locked == w.dirty
    && w.used <= sv.number.Keys
    && NumbersAgree(sv, w) && RegistryAgrees(sv, w)
  }

  ghost predicate NumbersAgree(sv: Server, w: World) {
    && 0 < sv.nextId
    && (forall n :: n in w.owner ==> n < sv.nextId && w.owner[n] in sv.number && sv.number[w.owner[n]] == n)
    && (forall bot :: bot in sv.number && sv.number[bot] != 0 ==>
          sv.number[bot] in w.owner && w.owner[sv.number[bot]] == bot)
  }

  ghost predicate RegistryAgrees(sv: Server, w: World) {
    forall n :: n in sv.registry ==>
      && n != 0 && n in w.owner && w.owner[n] == sv.registry[n].bot
      && sv.registry[n].bot in w.home && w.home[sv.registry[n].bot] == sv.registry[n].ticker
  }

  function Reported(s: Side, t: Trade): int {
    if s.Buy? then t.makerPrice else t.aggLimit
  }

  function Prices(s: Side, ts: seq<Trade>): seq<int> {
    seq(|ts|, i requires 0 <= i < |ts| => Reported(s, ts[i]))
  }

  function NumbersOf(number: map<string, nat>, ts: seq<Trade>): seq<nat> {
    seq(|ts|, i requires 0 <= i < |ts| => NumberOf(number, ts[i].maker))
  }

  /** The ask price the sample server reports always lies in the checker's price band. */
  lemma ReportedInBand(b: Book, id: string, s: Side, otype: OrderType, limit: int, qty: int, i: nat)
    requires Sound(b) && i < |SubmitTrades(b, id, s, otype, limit, qty)|
    ensures var t := SubmitTrades(b, id, s, otype, limit, qty)[i];
      && InBand(Reported(s, t), t) && t.aggLimit == SamplePrice(b, s, otype, limit)
  {
    hide Sweep;
    SweepTrades(b.Of(Opposite(s)), s, otype.Market?, limit, SamplePrice(b, s, otype, limit), qty, i);
  }

  lemma {:induction false} CrossesAt(s: Side, id: string, limit: int, ts: seq<Trade>, i: nat)
    requires i < |ts|
    ensures |AsCrosses(s, id, limit, ts)| == |ts| && AsCrosses(s, id, limit, ts)[i] == AsCross(s, id, limit, ts[i])
  {
    if 0 < i {
      CrossesAt(s, id, limit, ts[1..], i - 1);
    } else if 1 < |ts| {
      CrossesAt(s, id, limit, ts[1..], 0);
    }
  }

  /** The body the sample server writes is the whole report of the golden trades at its own prices. */
  lemma AnswerIsMirror(number: map<string, nat>, s: Side, id: string, limit: int, ts: seq<Trade>, at: int)
    requires id in number && forall i :: 0 <= i < |ts| ==> ts[i].aggLimit == limit
    ensures AnswerOf(number, AsCrosses(s, id, limit, ts), at)
         == Mirror(ts, NumbersOf(number, ts), Prices(s, ts), s, number[id], at)
  {
    hide AsCrosses;
    var cs := AsCrosses(s, id, limit, ts);
    if ts == [] {
      NoCrosses(s, id, limit);
    } else {
      CrossesAt(s, id, limit, ts, 0);
    }
    forall i | 0 <= i < |ts|
      ensures AnswerOf(number, cs, at)[i] == Mirror(ts, NumbersOf(number, ts), Prices(s, ts), s, number[id], at)[i]
    {
      CrossesAt(s, id, limit, ts, i);
    }
  }

  lemma NoCrosses(s: Side, id: string, limit: int)
    ensures AsCrosses(s, id, limit, []) == []
  {
  }

  lemma HomelessIsNotLive(w: World, t: string, id: string)
    requires HomesOk(w) && id !in w.used
    ensures id !in BookFor(w.books, t).live
  {
    EmptyLive();
    assert LiveIn(w.books, t, id) ==> id in w.home;
  }

  /** Conforming or not, an order makes the golden trades; conforming, it leaves the golden book. */
  lemma OrderTrades(sv: Server, w: World, r: Request)
    requires Mirrors(sv, w) && WorldOk(w) && r.NewOrder? && Fresh(sv, r) && FateOf(sv, r).Served?
    ensures var b := BookFor(w.books, r.ticker);
      && Sound(b) && LiveExact(b) && r.orderId !in b.live
      && Taken(sv, r).trades == AsCrosses(r.side, r.orderId, SamplePrice(b, r.side, r.otype, r.price), TrueTrades(w, r))
      && (Conforms(sv, r) ==> Taken(sv, r).book == Submit(b, r.orderId, r.side, r.otype, r.price, r.quantity))
  {
    hide Sound, LiveExact, AddOrder, Submit, SubmitTrades, SampleConforms, NumbersAgree, RegistryAgrees;
    var b := BookFor(w.books, r.ticker);
    BookForOk(w, r.ticker);
    HomelessIsNotLive(w, r.ticker, r.orderId);
    SampleAgreesExactly(b, r.orderId, r.side, r.otype, r.price, r.quantity);
  }

  lemma NumbersAreIds(sv: Server, w: World, r: Request)
    requires Mirrors(sv, w) && WorldOk(w) && r.NewOrder? && r.orderId !in sv.number
    ensures var ts := TrueTrades(w, r);
      var ids := NumbersOf(sv.number[r.orderId := sv.nextId], ts);
      forall i :: 0 <= i < |ts| ==> ids[i] in w.owner && w.owner[ids[i]] == ts[i].maker
  {
    hide TrueTrades, WorldOk, RegistryAgrees;
    var ts := TrueTrades(w, r);
    forall i | 0 <= i < |ts|
      ensures var m := NumberOf(sv.number[r.orderId := sv.nextId], ts[i].maker); m in w.owner && w.owner[m] == ts[i].maker
    {
      TrueMakersHaveIds(w, r, i);
    }
  }

  lemma ServedIsHonest(sv: Server, w: World, q: Asked)
    requires Mirrors(sv, w) && WorldOk(w) && q.request.NewOrder? && Fresh(sv, q.request) && FateOf(sv, q.request).Served?
    ensures Honest(w, ExchangeFor(sv, q))
  {
    hide Conforms, FateOf, TrueTrades, WorldOk, Honest, Mirrors, InBand, AnswerOf, AsCrosses, Mirror, Sound, LiveExact,
         Taken, Submit;
    var r := q.request;
    var ts := TrueTrades(w, r);
    var b := BookFor(w.books, r.ticker);
    var limit := SamplePrice(b, r.side, r.otype, r.price);
    var number := sv.number[r.orderId := sv.nextId];
    OrderTrades(sv, w, r);
    NumbersAreIds(sv, w, r);
    forall i | 0 <= i < |ts| ensures InBand(Reported(r.side, ts[i]), ts[i]) && ts[i].aggLimit == limit {
      TradesOfRequest(w, r);
      ReportedInBand(b, r.orderId, r.side, r.otype, r.price, r.quantity, i);
    }
    AnswerIsMirror(number, r.side, r.orderId, limit, ts, q.at);
    FreshForWorld(sv, w, r);
    WholeReportIsHonest(w, r, sv.nextId, NumbersOf(number, ts), Prices(r.side, ts), q.at);
    HiddenIdIsIdle(w, Attempt(r, Answered(200, true, sv.nextId, AnswerOf(number, Taken(sv, r).trades, q.at)), q.at), sv.nextId);
  }

  lemma HiddenIdIsIdle(w: World, a: Attempt, hiddenId: nat)
    requires Honest(w, Exchange(a, true, 0)) && OutcomeOf(a.response).Ok?
    ensures Honest(w, Exchange(a, true, hiddenId))
  {
    hide Agrees, AllKnown, TrueTrades, ResolveAll;
    assert Exchange(a, true, hiddenId).ServerId() == Exchange(a, true, 0).ServerId();
  }

  /** Whatever becomes of a well-behaved order, it is honest, and no hidden cancel. */
  lemma OrderIsHonest(sv: Server, w: World, q: Asked)
    requires Mirrors(sv, w) && WorldOk(w) && q.request.NewOrder? && Fresh(sv, q.request)
    ensures var x := ExchangeFor(sv, q);
      && Honest(w, x) && !HidesCancel(w, x)
      && (x.Result().Ok? <==> FateOf(sv, q.request).Served?)
      && (x.Result().Unknown? <==> FateOf(sv, q.request).Waits? || FateOf(sv, q.request).Locks?)
      && (x.Result().Ok? ==> q.request.ticker !in w.dirty)
  {
    hide WorldOk, Honest, Taken, AnswerOf, NumbersAgree, RegistryAgrees;
    NumbersPositive(sv, w);
    FreshForWorld(sv, w, q.request);
    if FateOf(sv, q.request).Served? {
      ServedIsHonest(sv, w, q);
    } else {
      UnservedIsHonest(sv, w, q);
    }
  }

  lemma UnservedIsHonest(sv: Server, w: World, q: Asked)
    requires q.request.NewOrder? && Fresh(sv, q.request) && !FateOf(sv, q.request).Served?
    requires sv.nextId != 0 && sv.nextId !in w.owner && q.request.orderId !in w.used
    ensures Honest(w, ExchangeFor(sv, q))
  {
    hide Taken, Agrees, AllKnown, TrueTrades, ResolveAll;
  }

  lemma TradesOfRequest(w: World, r: Request)
    requires r.NewOrder?
    ensures TrueTrades(w, r) == SubmitTrades(BookFor(w.books, r.ticker), r.orderId, r.side, r.otype, r.price, r.quantity)
  {
  }

  lemma FreshForWorld(sv: Server, w: World, r: Request)
    requires Mirrors(sv, w) && r.NewOrder? && r.orderId !in sv.number
    ensures sv.nextId != 0 && sv.nextId !in w.owner && r.orderId !in w.used
  {
    hide RegistryAgrees;
  }

  /** What the contestant model knows after an order. */
  lemma OrderOnFile(sv: Server, w: World, q: Asked)
    requires q.request.NewOrder? && 0 < sv.nextId
    ensures var r := q.request;
      var w' := Next(w, ExchangeFor(sv, q));
      && w'.used == w.used + {r.orderId}
      && w'.dirty == w.dirty + (if FateOf(sv, r).Waits? || FateOf(sv, r).Locks? then {r.ticker} else {})
      && w'.lost == w.lost + (if FateOf(sv, r).Waits? || FateOf(sv, r).Locks? then 1 else 0)
      && (if Applied(sv, r) then
            && w'.owner == w.owner[sv.nextId := r.orderId] && w'.home == w.home[r.orderId := r.ticker]
            && w'.books
               == w.books[r.ticker := Submit(BookFor(w.books, r.ticker), r.orderId, r.side, r.otype, r.price, r.quantity)]
          else w'.owner == w.owner && w'.home == w.home && w'.books == w.books)
  {
    hide Taken, Submit, AnswerOf, BookFor;
  }

  lemma OrderKeepsNumbers(sv: Server, w: World, q: Asked)
    requires NumbersAgree(sv, w) && w.used <= sv.number.Keys && q.request.NewOrder? && q.request.orderId !in sv.number
    ensures var sv', w' := Handle(sv, q.request), Next(w, ExchangeFor(sv, q));
      NumbersAgree(sv', w') && w'.used <= sv'.number.Keys
  {
    hide Taken, Submit, AnswerOf, Parties, BookFor, CleanedUp, Next, ExchangeFor, FateOf;
    OrderOnFile(sv, w, q);
  }

  lemma OrderKeepsRegistry(sv: Server, w: World, q: Asked)
    requires RegistryAgrees(sv, w) && NumbersAgree(sv, w) && q.request.NewOrder? && q.request.orderId !in sv.number
    requires HomesOk(w) && w.used <= sv.number.Keys
    ensures RegistryAgrees(Handle(sv, q.request), Next(w, ExchangeFor(sv, q)))
  {
    hide Taken, Submit, AnswerOf, Parties, BookFor, Next, ExchangeFor, FateOf;
    OrderOnFile(sv, w, q);
  }

  lemma OrderKeepsBooks(sv: Server, w: World, q: Asked)
    requires Mirrors(sv, w) && WorldOk(w) && q.request.NewOrder? && Asks(sv, q.request)
    ensures var sv', w' := Handle(sv, q.request), Next(w, ExchangeFor(sv, q));
      sv'.locked == w'.dirty && forall t :: t !in sv'.locked ==> BookFor(sv'.books, t) == BookFor(w'.books, t)
  {
    hide Sound, LiveExact, Taken, Submit, TrueTrades, AsCrosses, NumbersAgree, RegistryAgrees, Next, ExchangeFor,
         WorldOk,
         SampleConforms;
    NumbersPositive(sv, w);
    OrderOnFile(sv, w, q);
    if FateOf(sv, q.request).Served? {
      OrderTrades(sv, w, q.request);
    }
  }

  lemma OrderKeepsMirror(sv: Server, w: World, q: Asked)
    requires Mirrors(sv, w) && WorldOk(w) && q.request.NewOrder? && Asks(sv, q.request)
    ensures Mirrors(Handle(sv, q.request), Next(w, ExchangeFor(sv, q)))
  {
    hide Conforms, BooksOk, HomesOk, NumbersAgree, RegistryAgrees, Next, ExchangeFor, Handle;
    OrderKeepsNumbers(sv, w, q);
    OrderKeepsRegistry(sv, w, q);
    OrderKeepsBooks(sv, w, q);
  }

  lemma NumbersPositive(sv: Server, w: World)
    requires NumbersAgree(sv, w)
    ensures 0 < sv.nextId
  {
  }

  lemma AsksIsFresh(sv: Server, r: Request)
    requires Asks(sv, r)
    ensures Fresh(sv, r)
  {
  }

  /** A cancel is honest and never a hidden one: one that gets no answer has no effect. */
  lemma CancelIsHonest(sv: Server, w: World, q: Asked)
    requires Mirrors(sv, w) && WorldOk(w) && q.request.CancelRequest?
    ensures var x := ExchangeFor(sv, q);
      && Honest(w, x) && !HidesCancel(w, x)
      && (x.Result().Unknown? <==> FateOf(sv, q.request).Waits?)
  {
    hide BooksOk, HomesOk, Agrees, AllKnown, NumbersAgree;
  }

  lemma CancelKeepsMirror(sv: Server, w: World, q: Asked)
    requires Mirrors(sv, w) && WorldOk(w) && q.request.CancelRequest?
    ensures Mirrors(Handle(sv, q.request), Next(w, ExchangeFor(sv, q)))
  {
    hide BooksOk, HomesOk, CancelOrder;
  }

  /** How many requests got no answer. */
  function Unanswered(qs: seq<Asked>): nat {
    if qs == [] then 0
    else
      var fate := FateOf(ServerAfter(qs[..|qs| - 1]), qs[|qs| - 1].request);
      Unanswered(qs[..|qs| - 1]) + (if fate.Waits? || fate.Locks? then 1 else 0)
  }

  /** One more request, whatever becomes of it. */
  lemma OneMoreIsHonest(sv: Server, w: World, q: Asked)
    requires Mirrors(sv, w) && WorldOk(w) && Fresh(sv, q.request)
    ensures var x := ExchangeFor(sv, q);
      && Honest(w, x) && !HidesCancel(w, x)
      && (x.attempt.request.NewOrder? && x.Result().Ok? ==> x.attempt.request.ticker !in w.dirty)
      && (x.Result().Unknown? <==> FateOf(sv, q.request).Waits? || FateOf(sv, q.request).Locks?)
  {
    hide Mirrors, WorldOk, Honest, HidesCancel, FateOf, Reply, Applied, Fresh, OutcomeOf;
    if q.request.NewOrder? {
      OrderIsHonest(sv, w, q);
    } else {
      CancelIsHonest(sv, w, q);
      CancelNeverLocks(sv, q.request);
    }
  }

  lemma CancelNeverLocks(sv: Server, r: Request)
    requires r.CancelRequest?
    ensures !FateOf(sv, r).Locks?
  {
  }

  lemma OneMoreMirrors(sv: Server, w: World, q: Asked)
    requires Mirrors(sv, w) && WorldOk(w) && Asks(sv, q.request)
    ensures Mirrors(Handle(sv, q.request), Next(w, ExchangeFor(sv, q)))
  {
    hide Mirrors, WorldOk, Asks, Handle, Next, ExchangeFor;
    if q.request.NewOrder? {
      OrderKeepsMirror(sv, w, q);
    } else {
      CancelKeepsMirror(sv, w, q);
    }
  }

  /** A run of exchanges that keeps every premise of the soundness theorems. */
  ghost predicate Sane(xs: seq<Exchange>) {
    HonestRun(xs) && NoHiddenCancel(xs) && ClearOfLosses(xs)
  }

  lemma SaneGrows(xs: seq<Exchange>, x: Exchange)
    requires Sane(xs) && Honest(After(xs), x) && !HidesCancel(After(xs), x)
    requires x.attempt.request.NewOrder? && x.Result().Ok? ==> x.attempt.request.ticker !in After(xs).dirty
    ensures Sane(xs + [x])
    ensures After(xs + [x]) == Next(After(xs), x)
  {
    hide Honest, HidesCancel, Next, OutcomeOf;
    assert (xs + [x])[..|xs|] == xs;
  }

  /** Throughout a run the server holds the contestant model's books, and every answer it gives is honest. */
  lemma {:induction false} SampleIsHonest(qs: seq<Asked>)
    requires AsksThroughout(qs)
    ensures Sane(Exchanges(qs)) && |Exchanges(qs)| == |qs|
    ensures Mirrors(ServerAfter(qs), After(Exchanges(qs))) && After(Exchanges(qs)).lost == Unanswered(qs)
  {
    hide Mirrors, Honest, HidesCancel, Asks, Handle, Next, ExchangeFor, WorldOk, Sane, FateOf, After;
    if qs == [] {
      BootMirrors();
    } else {
      var front, q := qs[..|qs| - 1], qs[|qs| - 1];
      SampleIsHonest(front);
      SaneWorldOk(Exchanges(front));
      var sv, w := ServerAfter(front), After(Exchanges(front));
      AsksIsFresh(sv, q.request);
      OneMoreIsHonest(sv, w, q);
      OneMoreMirrors(sv, w, q);
      SaneGrows(Exchanges(front), ExchangeFor(sv, q));
      NextFacts(w, ExchangeFor(sv, q));
    }
  }

  lemma SaneWorldOk(xs: seq<Exchange>)
    requires Sane(xs)
    ensures WorldOk(After(xs))
  {
    hide WorldOk, After, HonestRun;
    HonestWorldOk(xs);
  }

  lemma BootMirrors()
    ensures Mirrors(BOOT, After([])) && Sane([]) && After([]).lost == 0
  {
  }

  /**
   End to end, whatever a well-behaved bot asks of the sample server short of a market order with a remainder: no part of
   the run's stream, permuted and duplicated at will, is ever judged incorrect, engines that lock themselves up or not.
   */
  lemma SampleServerNeverFails(qs: seq<Asked>, submission: string, endAt: int, received: seq<Event>)
    requires AsksThroughout(qs) && forall e :: e in received ==> e in Stream(submission, Attempts(Exchanges(qs)), endAt)
    ensures Finalize(received) != Incorrect
  {
    hide AsksThroughout, Exchanges, HonestRun, Finalize, Stream, NoHiddenCancel;
    SampleIsHonest(qs);
    HonestIsNeverIncorrect(Exchanges(qs), submission, endAt, received);
  }

  /** And the complete stream passes exactly when fewer than one in twenty requests got no answer. */
  lemma SampleServerPasses(qs: seq<Asked>, submission: string, endAt: int, received: seq<Event>)
    requires AsksThroughout(qs)
    requires SameEvents(received, Stream(submission, Attempts(Exchanges(qs)), endAt))
    ensures Finalize(received) == Correct <==> qs == [] || 20 * Unanswered(qs) < |qs|
  {
    hide AsksThroughout, Exchanges, HonestRun, Finalize, SameEvents, NoHiddenCancel, ClearOfLosses, Unanswered;
    SampleIsHonest(qs);
    ClearRunIsCorrectIff(Exchanges(qs), submission, endAt, received);
  }
}
