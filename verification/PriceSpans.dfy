/**
 What a reported price may be, order by order: on a complete run a fill beyond both the resting price of its maker and the
 end of the band its own order brings is caught, whatever else was reported.
 */
module PriceSpans {
  import opened MarketTypes
  import opened RankedBook
  import opened BookRuns
  import opened Differential
  import opened Writer
  import opened ReplaySpec
  import opened ReplayLaws
  import opened Contestant
  import opened Soundness
  import opened SoundnessTheorems
  import opened StreamComplete
  import opened OrderlyRuns

  /** The order's end of the band: its limit or, for a market order, the worst price that rests against it. */
  ghost predicate EndsBand(b: Book, s: Side, otype: OrderType, limit: int, end: int) {
    var opp := b.Of(Opposite(s));
    if otype.Market? then
      (exists o :: o in opp && o.price == end) && forall o :: o in opp ==> !Better(Opposite(s), end, o.price)
    else end == limit
  }

  lemma WorstIsLast(opp: seq<Resting>, s: Side, end: int)
    requires InRank(opp, s) && forall o :: o in opp ==> !Better(s, end, o.price)
    requires exists o :: o in opp && o.price == end
    ensures opp != [] && opp[|opp| - 1].price == end
  {
    var o :| o in opp && o.price == end;
    var k :| 0 <= k < |opp| && opp[k] == o;
    LastIsWorst(opp, s, k);
    assert opp[|opp| - 1] in opp;
  }

  lemma RestingIsLive(b: Book, s: Side, i: nat)
    requires LiveExact(b) && i < |b.Of(s)|
    ensures b.Of(s)[i].id in b.live && b.live[b.Of(s)[i].id].price == b.Of(s)[i].price
  {
    assert b.Of(s)[i] in b.Of(s);
  }

  /** A maker's trade names the price it rests at and the order's end of the band. */
  lemma MakerTrade(b: Book, id: string, s: Side, otype: OrderType, limit: int, qty: int, end: int, m: string)
    requires Sound(b) && LiveExact(b) && EndsBand(b, s, otype, limit, end)
    requires m in Makers(SubmitTrades(b, id, s, otype, limit, qty))
    ensures m in b.live
    ensures var t := FirstWith(SubmitTrades(b, id, s, otype, limit, qty), m);
      t.makerPrice == b.live[m].price && t.aggLimit == end
  {
    hide SubmitTrades, InRank, Uncrossed, LiveExact, FirstWith, Makers;
    var opp := b.Of(Opposite(s));
    var ts := SubmitTrades(b, id, s, otype, limit, qty);
    var t := FirstWith(ts, m);
    var i :| 0 <= i < |ts| && ts[i] == t;
    TradePricesAreFair(b, id, s, otype, limit, qty, i);
    RestingIsLive(b, Opposite(s), i);
    if otype.Market? {
      WorstIsLast(opp, Opposite(s), end);
    }
  }

  // ----- what an order of the run owes -----

  lemma {:induction false} UsedAt(xs: seq<Exchange>, i: nat)
    requires i < |xs| && xs[i].attempt.request.NewOrder?
    ensures xs[i].attempt.request.orderId in After(xs).used
  {
    hide Next;
    var front, x := xs[..|xs| - 1], xs[|xs| - 1];
    NextFacts(After(front), x);
    if i < |front| {
      UsedAt(front, i);
    }
  }

  /** An accepted order owes the golden trades on the book it met, however the run goes on. */
  lemma {:induction false} DueAt(xs: seq<Exchange>, i: nat)
    requires OrderlyRun(xs) && i < |xs| && xs[i].attempt.request.NewOrder? && xs[i].Result().Ok?
    ensures var r := xs[i].attempt.request;
      r.orderId in Accepted(xs) && Due(xs, r.orderId) == TrueTrades(After(xs[..i]), r)
  {
    hide After, TrueTrades, OutcomeOf;
    var front, x := xs[..|xs| - 1], xs[|xs| - 1];
    if i < |front| {
      assert front[..i] == xs[..i];
      DueAt(front, i);
      UsedAt(front, i);
    }
  }

  lemma {:induction false} OrderlyPrefix(xs: seq<Exchange>, i: nat)
    requires OrderlyRun(xs) && i <= |xs|
    ensures OrderlyRun(xs[..i])
  {
    hide Orderly, After;
    if i == |xs| {
      assert xs[..i] == xs;
    } else {
      assert xs[..|xs| - 1][..i] == xs[..i];
      OrderlyPrefix(xs[..|xs| - 1], i);
    }
  }

  lemma OffSpanDisagrees(w: World, r: Request, obs: seq<ObservedFill>, f: ObservedFill, end: int)
    requires WorldOk(w) && r.NewOrder? && AllKnown(obs) && f in obs
    requires var b := BookFor(w.books, r.ticker);
      && EndsBand(b, r.side, r.otype, r.price, end)
      && f.makerBot in b.live
      && (var p := b.live[f.makerBot].price; (f.price < p && f.price < end) || (f.price > p && f.price > end))
    ensures !Agrees(TrueTrades(w, r), obs)
  {
    hide SubmitTrades, Sound, LiveExact, EndsBand, Makers, FirstWith, SharesAgree, PricesAgree;
    var b := BookFor(w.books, r.ticker);
    var ts := TrueTrades(w, r);
    BookForOk(w, r.ticker);
    if f.makerBot in Makers(ts) {
      MakerTrade(b, r.orderId, r.side, r.otype, r.price, r.quantity, end, f.makerBot);
      OffSpanDiverges(ts, obs, f);
    }
  }

  /**
   The i-th exchange is an accepted order, and a fill reported under its id names an order resting in the book it met at a
   price beyond both that order's price and the order's own end: the complete run is judged incorrect.
   */
  lemma OffSpanConvicts(xs: seq<Exchange>, i: nat, f: ObservedFill, end: int, submission: string, endAt: int,
                        received: seq<Event>)
    requires OrderlyRun(xs) && NothingLost(xs) && SameEvents(received, Stream(submission, Attempts(xs), endAt))
    requires StrayCancels(Attempts(xs)) == {} && forall a :: a in Accepted(xs) ==> AllKnown(Reported(xs, a))
    requires i < |xs| && xs[i].attempt.request.NewOrder? && xs[i].Result().Ok?
    requires var r := xs[i].attempt.request;
      var b := BookFor(After(xs[..i]).books, r.ticker);
      && f in Reported(xs, r.orderId)
      && EndsBand(b, r.side, r.otype, r.price, end)
      && f.makerBot in b.live
      && (var p := b.live[f.makerBot].price; (f.price < p && f.price < end) || (f.price > p && f.price > end))
    ensures Finalize(received) == Incorrect
  {
    hide OrderlyRun, NothingLost, SameEvents, Stream, StrayCancels, Accepted, AllKnown, Reported, Due, Finalize, EndsBand,
         After, TrueTrades, Agrees, WorldOk, OutcomeOf;
    var r := xs[i].attempt.request;
    OrderlyPrefix(xs, i);
    WorldStaysOk(xs[..i]);
    DueAt(xs, i);
    OffSpanDisagrees(After(xs[..i]), r, Reported(xs, r.orderId), f, end);
    EveryBugIsCaught(xs, submission, endAt, received);
  }
}
