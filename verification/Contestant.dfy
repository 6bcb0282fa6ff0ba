/**
 A contestant that matches by the golden rules, seen through the writer: what it did, what it answered, and which
 answers got lost.
 */
module Contestant {
  import opened MarketTypes
  import opened RankedBook
  import opened BookLaws
  import opened Differential
  import opened Writer
  import opened ReplaySpec

  /** One attempt together with what really happened at the server, whether or not the writer learnt of it. */
  datatype Exchange = Exchange(attempt: Attempt, applied: bool, hiddenId: nat) {
    function Result(): Outcome {
      OutcomeOf(attempt.response)
    }

    function ServerId(): nat {
      if Result().Ok? then ServerIdOf(attempt.response) else hiddenId
    }
  }

  /**
   The contestant's books per ticker, the bot id behind each server id, the ticker each applied order belongs to,
   the bot ids used so far, the tickers on which some order's outcome is unknown, and how many outcomes are.
   */
  datatype World = World(
    books: map<string, Book>,
    owner: map<nat, string>,
    home: map<string, string>,
    used: set<string>,
    dirty: set<string>,
    lost: nat)

  const GENESIS := World(map[], map[], map[], {}, {}, 0)

  function Apply(w: World, x: Exchange): World {
    match x.attempt.request
    case NewOrder(id, side, otype, ticker, price, quantity) =>
      World(w.books[ticker := Submit(BookFor(w.books, ticker), id, side, otype, price, quantity)],
            w.owner[x.ServerId() := id], w.home[id := ticker], w.used, w.dirty, w.lost)
    case CancelRequest(target, _) =>
      if target in w.owner && w.owner[target] in w.home then
        var t := w.home[w.owner[target]];
        w.(books := w.books[t := CancelOrder(BookFor(w.books, t), w.owner[target])])
      else w
  }

  function Learn(w: World, x: Exchange): World {
    w.(used := w.used + (if x.attempt.request.NewOrder? then {x.attempt.request.orderId} else {}),
       dirty := w.dirty + (if x.Result().Unknown? && x.attempt.request.NewOrder? then {x.attempt.request.ticker} else {}),
       lost := w.lost + (if x.Result().Unknown? then 1 else 0))
  }

  function Next(w: World, x: Exchange): World {
    Learn(if x.applied then Apply(w, x) else w, x)
  }

  function After(xs: seq<Exchange>): World {
    if xs == [] then GENESIS else Next(After(xs[..|xs| - 1]), xs[|xs| - 1])
  }

  // ----- honesty -----

  /** The trades a request leads to under the golden rules. */
  function TrueTrades(w: World, r: Request): seq<Trade> {
    match r
    case NewOrder(id, side, otype, ticker, price, quantity) =>
      SubmitTrades(BookFor(w.books, ticker), id, side, otype, price, quantity)
    case CancelRequest(_, _) => []
  }

  function OwnerOf(w: World, serverId: nat): string {
    if serverId in w.owner then w.owner[serverId] else ""
  }

  /** A reported trade as the checker will read it once every server id is resolved to its bot id. */
  function Resolve(w: World, serverId: nat, t: ParsedTrade): ObservedFill {
    var m := MatchedId(t, serverId);
    ObservedFill(OwnerOf(w, m), m in w.owner, m, t.qty, t.price)
  }

  function ResolveAll(w: World, serverId: nat, ts: seq<ParsedTrade>): seq<ObservedFill> {
    if ts == [] then []
    else ResolveAll(w, serverId, ts[..|ts| - 1]) + [Resolve(w, serverId, ts[|ts| - 1])]
  }

  /**
   What the comparison takes for granted: an accepted request took effect and a rejected one did not, bot ids are fresh
   and named, and applied orders get fresh non-zero server ids.
   */
  predicate Orderly(w: World, x: Exchange) {
    && (x.Result().Ok? ==> x.applied)
    && (x.Result().Rejected? ==> !x.applied)
    && match x.attempt.request
       case NewOrder(id, _, _, ticker, _, _) =>
         id != "" && ticker != "" && id !in w.used && (x.applied ==> x.ServerId() != 0 && x.ServerId() !in w.owner)
       case CancelRequest(_, _) => true
  }

  /**
   The contestant reports truthfully: for each accepted order trades that agree with the golden rules on its own book,
   in any split, order and in-band price convention, and none with a cancel.
   */
  ghost predicate Truthful(w: World, x: Exchange) {
    match x.attempt.request
    case NewOrder(_, _, _, _, _, _) =>
      x.Result().Ok? ==>
        var fills := ResolveAll(w, x.ServerId(), TradesOf(x.attempt.response));
        AllKnown(fills) && Agrees(TrueTrades(w, x.attempt.request), fills)
    case CancelRequest(_, _) =>
      TradesOf(x.attempt.response) == []
  }

  ghost predicate Honest(w: World, x: Exchange) {
    Orderly(w, x) && Truthful(w, x)
  }

  predicate OrderlyRun(xs: seq<Exchange>) {
    xs == [] || (OrderlyRun(xs[..|xs| - 1]) && Orderly(After(xs[..|xs| - 1]), xs[|xs| - 1]))
  }

  ghost predicate HonestRun(xs: seq<Exchange>) {
    xs == [] || (HonestRun(xs[..|xs| - 1]) && Honest(After(xs[..|xs| - 1]), xs[|xs| - 1]))
  }

  lemma HonestIsOrderly(w: World, x: Exchange)
    requires Honest(w, x)
    ensures Orderly(w, x)
  {
  }

  lemma {:induction false} HonestRunIsOrderly(xs: seq<Exchange>)
    requires HonestRun(xs)
    ensures OrderlyRun(xs)
  {
    hide Orderly, Truthful, After;
    if xs != [] {
      HonestRunIsOrderly(xs[..|xs| - 1]);
    }
  }

  /** The one loss the checker cannot attribute: a cancel that worked, unseen, on a ticker with no other loss. */
  predicate HidesCancel(w: World, x: Exchange) {
    && x.attempt.request.CancelRequest? && x.Result().Unknown? && x.applied
    && x.attempt.request.targetId in w.owner
    && (var bot := w.owner[x.attempt.request.targetId];
        bot in w.home && w.home[bot] !in w.dirty && bot in BookFor(w.books, w.home[bot]).live)
  }

  predicate NoHiddenCancel(xs: seq<Exchange>) {
    xs == [] || (NoHiddenCancel(xs[..|xs| - 1]) && !HidesCancel(After(xs[..|xs| - 1]), xs[|xs| - 1]))
  }

  function Attempts(xs: seq<Exchange>): seq<Attempt> {
    if xs == [] then [] else Attempts(xs[..|xs| - 1]) + [xs[|xs| - 1].attempt]
  }

  // ----- the contestant's own invariant -----

  ghost predicate BooksOk(w: World) {
    forall t :: t in w.books ==> Sound(w.books[t]) && LiveExact(w.books[t])
  }

  /** Resting orders rest in the book of their ticker, and every applied order has a ticker and a used id. */
  ghost predicate HomesOk(w: World) {
    && (forall t, id :: LiveIn(w.books, t, id) ==> id in w.home && w.home[id] == t)
    && (forall s :: s in w.owner ==> s != 0 && w.owner[s] in w.home)
    && (forall id :: id in w.home ==> w.home[id] != "" && HasServerId(w, id))
    && w.home.Keys <= w.used
  }

  ghost predicate HasServerId(w: World, id: string) {
    exists s :: s in w.owner && w.owner[s] == id
  }

  ghost predicate WorldOk(w: World) {
    BooksOk(w) && HomesOk(w)
  }

  lemma BookForOk(w: World, t: string)
    requires BooksOk(w)
    ensures Sound(BookFor(w.books, t)) && LiveExact(BookFor(w.books, t))
  {
    assert Sound(EMPTY) && LiveExact(EMPTY);
  }

  lemma ApplyKeepsBooks(w: World, x: Exchange)
    requires WorldOk(w) && Orderly(w, x) && x.applied
    ensures BooksOk(Apply(w, x))
  {
    hide Sound, LiveExact, Submit, CancelOrder;
    match x.attempt.request {
      case NewOrder(id, side, otype, ticker, price, quantity) =>
        var b := BookFor(w.books, ticker);
        BookForOk(w, ticker);
        assert id !in b.live by {
          assert LiveIn(w.books, ticker, id) ==> id in w.home;
          EmptyLive();
        }
        SubmitKeepsSound(b, id, side, otype, price, quantity);
        SubmitKeepsLive(b, id, side, otype, price, quantity);
      case CancelRequest(target, _) =>
        if target in w.owner {
          var t := w.home[w.owner[target]];
          BookForOk(w, t);
          CancelKeepsSound(BookFor(w.books, t), w.owner[target]);
          CancelKeepsLive(BookFor(w.books, t), w.owner[target]);
        }
    }
  }

  lemma EmptyLive()
    ensures EMPTY.live == map[]
  {
  }

  lemma ApplyKeepsHomes(w: World, x: Exchange)
    requires WorldOk(w) && Orderly(w, x) && x.applied
    ensures HomesOk(Learn(Apply(w, x), x))
  {
    hide Orderly, HomesOk, WorldOk, Apply;
    if x.attempt.request.NewOrder? {
      OrderKeepsHomes(w, x);
    } else {
      CancelKeepsHomes(w, x);
    }
  }

  lemma OrderKeepsHomes(w: World, x: Exchange)
    requires WorldOk(w) && Orderly(w, x) && x.applied && x.attempt.request.NewOrder?
    ensures HomesOk(Learn(Apply(w, x), x))
  {
    hide BooksOk, Submit;
    var w' := Apply(w, x);
    var r := x.attempt.request;
    SubmitAddsOneId(BookFor(w.books, r.ticker), r.orderId, r.side, r.otype, r.price, r.quantity);
    forall t, i | LiveIn(w'.books, t, i) ensures i in w'.home && w'.home[i] == t {
      assert LiveIn(w.books, t, i) || (t == r.ticker && i == r.orderId) by {
        EmptyLive();
      }
    }
    forall i | i in w'.home ensures w'.home[i] != "" && HasServerId(w', i) {
      if i == r.orderId {
        assert w'.owner[x.ServerId()] == r.orderId;
      } else {
        var s :| s in w.owner && w.owner[s] == i;
        assert w'.owner[s] == i;
      }
    }
  }

  lemma CancelKeepsHomes(w: World, x: Exchange)
    requires WorldOk(w) && x.attempt.request.CancelRequest?
    ensures HomesOk(Learn(Apply(w, x), x))
  {
    hide BooksOk, CancelOrder;
    var target := x.attempt.request.targetId;
    var w' := Apply(w, x);
    if target in w.owner {
      var t := w.home[w.owner[target]];
      CancelDropsOneId(BookFor(w.books, t), w.owner[target]);
      forall u, i | LiveIn(w'.books, u, i) ensures LiveIn(w.books, u, i) {
        EmptyLive();
      }
    }
    LearnKeepsHomes(w', x);
  }

  lemma {:induction false} WorldStaysOk(xs: seq<Exchange>)
    requires OrderlyRun(xs)
    ensures WorldOk(After(xs))
  {
    hide Apply, Orderly, HomesOk, BooksOk;
    if xs == [] {
      GenesisOk();
    } else {
      var w, x := After(xs[..|xs| - 1]), xs[|xs| - 1];
      WorldStaysOk(xs[..|xs| - 1]);
      if x.applied {
        ApplyKeepsBooks(w, x);
        ApplyKeepsHomes(w, x);
        LearnKeepsOk(Apply(w, x), x);
      } else {
        LearnKeepsOk(w, x);
        LearnKeepsHomes(w, x);
      }
    }
  }

  lemma HonestWorldOk(xs: seq<Exchange>)
    requires HonestRun(xs)
    ensures WorldOk(After(xs))
  {
    hide WorldOk, After;
    HonestRunIsOrderly(xs);
    WorldStaysOk(xs);
  }

  lemma GenesisOk()
    ensures WorldOk(GENESIS)
  {
  }

  lemma LearnKeepsOk(w: World, x: Exchange)
    requires BooksOk(w)
    ensures BooksOk(Learn(w, x))
  {
  }

  lemma LearnKeepsHomes(w: World, x: Exchange)
    requires HomesOk(w)
    ensures HomesOk(Learn(w, x))
  {
  }

  // ----- an honest answer always exists -----

  /** The answer that reports every trade whole and in order, each at a price of its own. */
  function Mirror(ts: seq<Trade>, ids: seq<nat>, prices: seq<int>, side: Side, serverId: nat, at: int): seq<ParsedTrade>
    requires |ids| == |ts| == |prices|
  {
    seq(|ts|, i requires 0 <= i < |ts| =>
      if side.Buy? then ParsedTrade(serverId, ids[i], prices[i], ts[i].qty, at)
      else ParsedTrade(ids[i], serverId, prices[i], ts[i].qty, at))
  }

  function Mirrored(ts: seq<Trade>, ids: seq<nat>, prices: seq<int>): seq<ObservedFill>
    requires |ids| == |ts| == |prices|
  {
    seq(|ts|, i requires 0 <= i < |ts| => ObservedFill(ts[i].maker, true, ids[i], ts[i].qty, prices[i]))
  }

  lemma {:induction false} MirrorResolves(w: World, ts: seq<Trade>, ids: seq<nat>, prices: seq<int>, side: Side,
                        serverId: nat, at: int)
    requires |ids| == |ts| == |prices| && serverId !in w.owner
    requires forall i :: 0 <= i < |ts| ==> ids[i] in w.owner && w.owner[ids[i]] == ts[i].maker
    ensures ResolveAll(w, serverId, Mirror(ts, ids, prices, side, serverId, at)) == Mirrored(ts, ids, prices)
  {
    if ts != [] {
      var n := |ts| - 1;
      MirrorResolves(w, ts[..n], ids[..n], prices[..n], side, serverId, at);
      var ps := Mirror(ts, ids, prices, side, serverId, at);
      assert ps[..n] == Mirror(ts[..n], ids[..n], prices[..n], side, serverId, at);
      assert Mirrored(ts, ids, prices)[..n] == Mirrored(ts[..n], ids[..n], prices[..n]);
      assert MatchedId(ps[n], serverId) == ids[n];
    }
  }

  lemma {:induction false} MirrorShares(ts: seq<Trade>, ids: seq<nat>, prices: seq<int>, m: string)
    requires |ids| == |ts| == |prices|
    ensures FilledWith(Mirrored(ts, ids, prices), m) == VolumeAgainst(ts, m)
  {
    if ts != [] {
      MirrorShares(ts[1..], ids[1..], prices[1..], m);
      assert Mirrored(ts, ids, prices)[1..] == Mirrored(ts[1..], ids[1..], prices[1..]);
    }
  }

  /** Whatever in-band prices are reported, a whole and truthful report agrees with the golden trades. */
  lemma MirrorAgrees(ts: seq<Trade>, ids: seq<nat>, prices: seq<int>)
    requires |ids| == |ts| == |prices| && forall j, k :: 0 <= j < k < |ts| ==> ts[j].maker != ts[k].maker
    requires forall i :: 0 <= i < |ts| ==> InBand(prices[i], ts[i])
    ensures AllKnown(Mirrored(ts, ids, prices)) && Agrees(ts, Mirrored(ts, ids, prices))
  {
    hide FirstWith, FilledWith, VolumeAgainst, InBand;
    var obs := Mirrored(ts, ids, prices);
    forall m | m in Makers(ts) ensures FilledWith(obs, m) == VolumeAgainst(ts, m) {
      MirrorShares(ts, ids, prices, m);
    }
    forall f | f in obs ensures f.makerBot in Makers(ts) && InBand(f.price, FirstWith(ts, f.makerBot)) {
      var i :| 0 <= i < |obs| && obs[i] == f;
      FirstOfDistinct(ts, i);
    }
  }

  ghost function IdOf(w: World, bot: string): (s: nat)
    requires HasServerId(w, bot)
    ensures s in w.owner && w.owner[s] == bot
  {
    var s :| s in w.owner && w.owner[s] == bot;
    s
  }

  ghost function IdsOf(w: World, ts: seq<Trade>): (ids: seq<nat>)
    requires forall i :: 0 <= i < |ts| ==> HasServerId(w, ts[i].maker)
    ensures |ids| == |ts| && forall i :: 0 <= i < |ts| ==> ids[i] in w.owner && w.owner[ids[i]] == ts[i].maker
  {
    seq(|ts|, i requires 0 <= i < |ts| => IdOf(w, ts[i].maker))
  }

  lemma TrueMakersHaveIds(w: World, r: Request, i: nat)
    requires WorldOk(w) && r.NewOrder? && i < |TrueTrades(w, r)|
    ensures HasServerId(w, TrueTrades(w, r)[i].maker)
  {
    hide Sound, LiveExact, SubmitTrades;
    var ts := TrueTrades(w, r);
    assert ts[i] in ts && ts[i].maker in Makers(ts);
    BookForOk(w, r.ticker);
    MakersAreLive(BookFor(w.books, r.ticker), r.orderId, r.side, r.otype, r.price, r.quantity, ts[i].maker);
    EmptyLive();
    assert LiveIn(w.books, r.ticker, ts[i].maker);
  }

  lemma TrueMakersDiffer(w: World, r: Request, j: nat, k: nat)
    requires WorldOk(w) && r.NewOrder? && j < k < |TrueTrades(w, r)|
    ensures TrueTrades(w, r)[j].maker != TrueTrades(w, r)[k].maker
  {
    BookForOk(w, r.ticker);
    MakersDoNotRepeat(BookFor(w.books, r.ticker), r.orderId, r.side, r.otype, r.price, r.quantity, j, k);
  }

  /** Every whole report of an order's true trades under a fresh server id, at any in-band prices, is an honest answer. */
  lemma WholeReportIsHonest(w: World, r: Request, serverId: nat, ids: seq<nat>, prices: seq<int>, at: int)
    requires WorldOk(w) && r.NewOrder? && r.orderId != "" && r.ticker != "" && r.orderId !in w.used
    requires serverId != 0 && serverId !in w.owner
    requires var ts := TrueTrades(w, r);
      && |ids| == |ts| == |prices|
      && (forall i :: 0 <= i < |ts| ==> ids[i] in w.owner && w.owner[ids[i]] == ts[i].maker)
      && (forall i :: 0 <= i < |ts| ==> InBand(prices[i], ts[i]))
    ensures var answer := Mirror(TrueTrades(w, r), ids, prices, r.side, serverId, at);
      Honest(w, Exchange(Attempt(r, Answered(200, true, serverId, answer), at), true, 0))
  {
    hide Sound, LiveExact, SubmitTrades, Agrees, AllKnown, WorldOk, InBand;
    var ts := TrueTrades(w, r);
    forall j, k | 0 <= j < k < |ts| ensures ts[j].maker != ts[k].maker {
      TrueMakersDiffer(w, r, j, k);
    }
    MirrorAgrees(ts, ids, prices);
    MirrorResolves(w, ts, ids, prices, r.side, serverId, at);
  }

  /** Honesty is never impossible: every fresh order has a truthful answer under a fresh server id. */
  lemma HonestAnswerExists(w: World, r: Request, serverId: nat) returns (x: Exchange)
    requires WorldOk(w) && r.NewOrder? && r.orderId != "" && r.ticker != "" && r.orderId !in w.used
    requires serverId != 0 && serverId !in w.owner
    ensures x.attempt.request == r && x.Result().Ok? && x.applied && x.ServerId() == serverId && Honest(w, x)
  {
    hide Sound, LiveExact, SubmitTrades, Agrees, AllKnown, WorldOk;
    var ts := TrueTrades(w, r);
    forall i | 0 <= i < |ts| ensures HasServerId(w, ts[i].maker) {
      TrueMakersHaveIds(w, r, i);
    }
    var ids := IdsOf(w, ts);
    var prices := seq(|ts|, i requires 0 <= i < |ts| => ts[i].makerPrice);
    x := Exchange(Attempt(r, Answered(200, true, serverId, Mirror(ts, ids, prices, r.side, serverId, 0)), 0), true, 0);
    WholeReportIsHonest(w, r, serverId, ids, prices, 0);
  }

  // ----- fresh identifiers -----

  lemma FreshString(used: set<string>) returns (s: string)
    ensures s != "" && s !in used
  {
    var n := LongerThanAll(used);
    s := seq(n + 1, _ => 'x');
  }

  lemma LongerThanAll(used: set<string>) returns (n: nat)
    ensures forall s :: s in used ==> |s| <= n
    decreases used
  {
    n := 0;
    if used != {} {
      var s :| s in used;
      var m := LongerThanAll(used - {s});
      n := if |s| <= m then m else |s|;
    }
  }

  lemma FreshNumber(used: set<nat>) returns (k: nat)
    ensures k != 0 && forall n :: n in used ==> n < k
    decreases used
  {
    k := 1;
    if used != {} {
      var n :| n in used;
      var m := FreshNumber(used - {n});
      k := if n < m then m else n + 1;
      assert forall i :: i in used ==> i in used - {n} || i == n;
    }
  }
}
