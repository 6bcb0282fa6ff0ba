/** Whole runs of orders and cancels on one book: what always holds of the book, and where every unit of quantity goes. */
module BookRuns {
  import opened MarketTypes
  import opened RankedBook
  import opened BookLaws
  import opened PriceTime

  datatype Op =
    | Place(id: string, side: Side, otype: OrderType, limit: int, qty: int)
    | Pull(id: string)

  function Apply(b: Book, op: Op): Book {
    match op
    case Place(id, s, otype, limit, qty) => Submit(b, id, s, otype, limit, qty)
    case Pull(id) => CancelOrder(b, id)
  }

  function TradesOf(b: Book, op: Op): seq<Trade> {
    match op
    case Place(id, s, otype, limit, qty) => SubmitTrades(b, id, s, otype, limit, qty)
    case Pull(_) => []
  }

  function Run(ops: seq<Op>): Book {
    if ops == [] then EMPTY else Apply(Run(ops[..|ops| - 1]), ops[|ops| - 1])
  }

  function PlacedIds(ops: seq<Op>): set<string> {
    set op | op in ops && op.Place? :: op.id
  }

  /** No two orders of the run share an id, as the load generator guarantees. */
  predicate FreshIds(ops: seq<Op>) {
    forall i, j :: 0 <= i < j < |ops| && ops[i].Place? && ops[j].Place? ==> ops[i].id != ops[j].id
  }

  // ----- invariants of every reachable book -----

  lemma {:induction false} RunIsSound(ops: seq<Op>)
    ensures Sound(Run(ops))
  {
    if ops != [] {
      var before := Run(ops[..|ops| - 1]);
      RunIsSound(ops[..|ops| - 1]);
      match ops[|ops| - 1] {
        case Place(id, s, otype, limit, qty) => SubmitKeepsSound(before, id, s, otype, limit, qty);
        case Pull(id) => CancelKeepsSound(before, id);
      }
    }
  }

  lemma PrefixFacts(ops: seq<Op>)
    requires ops != []
    ensures var front, last := ops[..|ops| - 1], ops[|ops| - 1];
      && PlacedIds(front) <= PlacedIds(ops)
      && (last.Place? ==> last.id in PlacedIds(ops))
      && (FreshIds(ops) ==> FreshIds(front) && (last.Place? ==> last.id !in PlacedIds(front)))
      && (forall id :: id in PlacedIds(ops) ==> id in PlacedIds(front) || (last.Place? && id == last.id))
  {
    var front, last := ops[..|ops| - 1], ops[|ops| - 1];
    assert ops == front + [last];
    assert forall op :: op in ops <==> op in front || op == last;
    if FreshIds(ops) && last.Place? {
      forall op | op in front && op.Place? ensures op.id != last.id {
        var i :| 0 <= i < |front| && front[i] == op;
        assert ops[i] == op;
      }
    }
  }

  lemma {:induction false} RunIndexIsExact(ops: seq<Op>)
    requires FreshIds(ops)
    ensures LiveExact(Run(ops)) && Run(ops).live.Keys <= PlacedIds(ops)
  {
    if ops != [] {
      var front := ops[..|ops| - 1];
      PrefixFacts(ops);
      RunIndexIsExact(front);
      RunIsSound(front);
      match ops[|ops| - 1] {
        case Place(id, s, otype, limit, qty) =>
          SubmitKeepsLive(Run(front), id, s, otype, limit, qty);
          SubmitAddsOneId(Run(front), id, s, otype, limit, qty);
        case Pull(id) =>
          CancelKeepsLive(Run(front), id);
      }
    }
  }

  // ----- price-time priority over whole runs -----

  function TextRun(ops: seq<Op>): Arrivals {
    if ops == [] then Arrivals([], [])
    else
      var a := TextRun(ops[..|ops| - 1]);
      match ops[|ops| - 1]
      case Place(id, s, otype, limit, qty) => TextSubmit(a, id, s, otype, limit, qty).0
      case Pull(id) => TextCancel(a, id)
  }

  function TextTradesOf(a: Arrivals, op: Op): seq<Trade> {
    match op
    case Place(id, s, otype, limit, qty) => TextSubmit(a, id, s, otype, limit, qty).1
    case Pull(_) => []
  }

  /** At every point of every run the golden book is the textbook's, ranked, and the next operation trades alike. */
  lemma {:induction false} RunIsPriceTime(ops: seq<Op>, next: Op)
    requires FreshIds(ops)
    ensures Refines(Run(ops), TextRun(ops))
    ensures TradesOf(Run(ops), next) == TextTradesOf(TextRun(ops), next)
  {
    if ops != [] {
      var front, last := ops[..|ops| - 1], ops[|ops| - 1];
      PrefixFacts(ops);
      RunIsPriceTime(front, last);
      RunIndexIsExact(front);
      match last {
        case Place(id, s, otype, limit, qty) => SubmitIsPriceTime(Run(front), TextRun(front), id, s, otype, limit, qty);
        case Pull(id) => CancelIsPriceTime(Run(front), TextRun(front), id);
      }
    }
    match next {
      case Place(id, s, otype, limit, qty) => SubmitIsPriceTime(Run(ops), TextRun(ops), id, s, otype, limit, qty);
      case Pull(_) =>
    }
  }

  // ----- fill-or-kill -----

  /** A fill-or-kill order either leaves the book alone without a trade or fills in full; it never rests. */
  lemma FillOrKillIsAllOrNothing(b: Book, id: string, s: Side, limit: int, qty: int)
    requires Sound(b) && 0 < qty
    ensures var b' := Submit(b, id, s, FillOrKill, limit, qty);
      var trades := SubmitTrades(b, id, s, FillOrKill, limit, qty);
      var enough := qty <= Depth(b.Of(Opposite(s)), s, false, limit);
      && (enough <==> SweepOf(b, s, FillOrKill, limit, qty).left == 0)
      && (enough ==> Volume(trades) == qty)
      && (!enough ==> trades == [] && b' == b)
      && b'.Of(s) == b.Of(s)
  {
    var opp := b.Of(Opposite(s));
    SweepLeavesShortfall(opp, s, false, limit, Band(opp, false, limit), qty);
    SweepConserves(opp, s, false, limit, Band(opp, false, limit), qty);
  }

  // ----- prices -----

  /** No order of a ranked list is worse than its last one. */
  lemma {:induction false} LastIsWorst(rs: seq<Resting>, s: Side, i: nat)
    requires InRank(rs, s) && i < |rs|
    ensures !Better(s, rs[|rs| - 1].price, rs[i].price)
  {
    if i + 1 < |rs| {
      if 0 < i {
        LastIsWorst(rs[1..], s, i - 1);
      } else {
        LastIsWorst(rs[1..], s, 0);
      }
    }
  }

  /** Limit trades respect both limits; market trades stay between the maker's price and the worst price on arrival. */
  lemma TradePricesAreFair(b: Book, id: string, s: Side, otype: OrderType, limit: int, qty: int, i: nat)
    requires Sound(b) && i < |SubmitTrades(b, id, s, otype, limit, qty)|
    ensures var t := SubmitTrades(b, id, s, otype, limit, qty)[i];
      var opp := b.Of(Opposite(s));
      && i < |opp| && t.maker == opp[i].id && t.makerPrice == opp[i].price && 0 < t.qty <= opp[i].qty
      && (!otype.Market? ==>
            t.aggLimit == limit && (if s.Buy? then t.makerPrice <= limit else t.makerPrice >= limit))
      && (otype.Market? ==> t.aggLimit == opp[|opp| - 1].price && !Better(Opposite(s), t.aggLimit, t.makerPrice))
  {
    var opp := b.Of(Opposite(s));
    SweepTrades(opp, s, otype.Market?, limit, Band(opp, otype.Market?, limit), qty, i);
    LastIsWorst(opp, Opposite(s), i);
  }

  // ----- ranks, in plain prices -----

  /** Bids never rise and asks never fall along their list. */
  lemma {:induction false} RankedPrices(rs: seq<Resting>, s: Side, i: nat, j: nat)
    requires InRank(rs, s) && i <= j < |rs|
    ensures if s.Buy? then rs[i].price >= rs[j].price else rs[i].price <= rs[j].price
  {
    if 0 < i {
      RankedPrices(rs[1..], s, i - 1, j - 1);
    } else if 0 < j {
      RankedPrices(rs[1..], s, 0, j - 1);
    }
  }

  // ----- conservation of quantity -----

  function QtyIn(rs: seq<Resting>, id: string): int {
    if rs == [] then 0 else (if rs[0].id == id then rs[0].qty else 0) + QtyIn(rs[1..], id)
  }

  function QtyOf(b: Book, id: string): int {
    QtyIn(b.bids, id) + QtyIn(b.asks, id)
  }

  lemma {:induction false} QtyConcat(a: seq<Resting>, b: seq<Resting>, id: string)
    ensures QtyIn(a + b, id) == QtyIn(a, id) + QtyIn(b, id)
  {
    if a == [] {
      assert a + b == b;
    } else {
      assert (a + b)[1..] == a[1..] + b;
      QtyConcat(a[1..], b, id);
    }
  }

  lemma {:induction false} QtyNonNegative(rs: seq<Resting>, s: Side, id: string)
    requires InRank(rs, s)
    ensures 0 <= QtyIn(rs, id)
    ensures id !in Ids(rs) ==> QtyIn(rs, id) == 0
  {
    if rs != [] {
      IdsConcat([rs[0]], rs[1..]);
      assert [rs[0]] + rs[1..] == rs && rs[0].id in Ids([rs[0]]);
      QtyNonNegative(rs[1..], s, id);
    }
  }

  lemma QtyCons(r: Resting, rs: seq<Resting>, id: string)
    ensures QtyIn([r] + rs, id) == (if r.id == id then r.qty else 0) + QtyIn(rs, id)
  {
    assert ([r] + rs)[1..] == rs;
  }

  lemma {:induction false} SweepMovesQty(opp: seq<Resting>, s: Side, market: bool, limit: int, band: int, qty: int,
                        id: string)
    requires InRank(opp, Opposite(s))
    ensures var sw := Sweep(opp, s, market, limit, band, qty);
      && QtyIn(opp, id) == QtyIn(sw.book, id) + VolumeAgainst(sw.trades, id)
      && 0 <= VolumeAgainst(sw.trades, id)
  {
    if 0 < qty && opp != [] && Crosses(s, market, limit, opp[0].price) {
      var m := Min(qty, opp[0].qty);
      var t := Trade(opp[0].id, m, opp[0].price, band, market);
      if opp[0].qty <= qty {
        SweepMovesQty(opp[1..], s, market, limit, band, qty - opp[0].qty, id);
        AgainstCons(t, Sweep(opp[1..], s, market, limit, band, qty - opp[0].qty).trades, id);
      } else {
        QtyCons(opp[0].(qty := opp[0].qty - m), opp[1..], id);
        AgainstCons(t, [], id);
        assert [t] + [] == [t];
      }
    }
  }

  lemma InsertAddsQty(own: seq<Resting>, s: Side, r: Resting, id: string)
    ensures QtyIn(Insert(own, s, r), id) == QtyIn(own, id) + (if r.id == id then r.qty else 0)
  {
    var k := InsertAt(own, s, r);
    QtyConcat(own[..k] + [r], own[k..], id);
    QtyConcat(own[..k], [r], id);
    QtyConcat(own[..k], own[k..], id);
    assert own[..k] + own[k..] == own;
    assert QtyIn([r][1..], id) == 0;
  }

  lemma {:induction false} QtyWithout(rs: seq<Resting>, gone: string, id: string)
    ensures QtyIn(Without(rs, gone), id) == if id == gone then 0 else QtyIn(rs, id)
  {
    if rs != [] {
      QtyWithout(rs[1..], gone, id);
      if rs[0].id != gone {
        assert Without(rs, gone)[1..] == Without(rs[1..], gone);
      }
    }
  }

  lemma CancelRemovesQty(b: Book, gone: string, id: string)
    requires LiveExact(b)
    ensures QtyOf(CancelOrder(b, gone), id) == if id == gone then 0 else QtyOf(b, id)
  {
    QtyWithout(b.bids, gone, id);
    QtyWithout(b.asks, gone, id);
    if gone in b.live {
      var s := b.live[gone].side;
      RemoveIsWithout(b.Of(s), gone, b.live[gone].price);
      WithoutAbsent(b.Of(Opposite(s)), gone);
    } else {
      WithoutAbsent(b.bids, gone);
      WithoutAbsent(b.asks, gone);
    }
  }

  /** What an incoming order loses for good: a killed order everything, a market or fill-and-kill order its remainder. */
  function DroppedBy(b: Book, op: Op): int {
    match op
    case Pull(_) => 0
    case Place(id, s, otype, limit, qty) =>
      if Killed(b, s, otype, limit, qty) then qty
      else if !Rests(otype) then SweepOf(b, s, otype, limit, qty).left
      else 0
  }

  lemma SubmitMovesQty(b: Book, op: Op, id: string)
    requires Sound(b) && op.Place? && 0 < op.qty
    ensures var own := if op.id == id then op.qty - Volume(TradesOf(b, op)) - DroppedBy(b, op) else 0;
      && QtyOf(Apply(b, op), id) == QtyOf(b, id) - VolumeAgainst(TradesOf(b, op), id) + own
      && 0 <= VolumeAgainst(TradesOf(b, op), id) && 0 <= Volume(TradesOf(b, op)) && 0 <= DroppedBy(b, op)
      && (op.id == id ==> 0 <= own && (DroppedBy(b, op) != 0 ==> own == 0))
  {
    var s, otype := op.side, op.otype;
    var opp := b.Of(Opposite(s));
    var band := Band(opp, otype.Market?, op.limit);
    if !Killed(b, s, otype, op.limit, op.qty) {
      var sw := SweepOf(b, s, otype, op.limit, op.qty);
      SweepMovesQty(opp, s, otype.Market?, op.limit, band, op.qty, id);
      SweepConserves(opp, s, otype.Market?, op.limit, band, op.qty);
      VolumeNonNegative(opp, s, otype.Market?, op.limit, band, op.qty);
      InsertAddsQty(b.Of(s), s, Resting(op.id, op.limit, sw.left), id);
    }
  }

  lemma {:induction false} VolumeNonNegative(opp: seq<Resting>, s: Side, market: bool, limit: int, band: int, qty: int)
    requires InRank(opp, Opposite(s))
    ensures 0 <= Volume(Sweep(opp, s, market, limit, band, qty).trades)
  {
    if 0 < qty && opp != [] && Crosses(s, market, limit, opp[0].price) && opp[0].qty <= qty {
      VolumeNonNegative(opp[1..], s, market, limit, band, qty - opp[0].qty);
      var r := Sweep(opp[1..], s, market, limit, band, qty - opp[0].qty);
      assert Sweep(opp, s, market, limit, band, qty).trades[1..] == r.trades;
    }
  }

  lemma NotResting(b: Book, id: string)
    requires Sound(b) && LiveExact(b) && id !in b.live
    ensures QtyOf(b, id) == 0 && QtyIn(b.bids, id) == 0 && QtyIn(b.asks, id) == 0
  {
    QtyNonNegative(b.bids, Buy, id);
    QtyNonNegative(b.asks, Sell, id);
  }

  lemma NotTraded(b: Book, id: string, s: Side, otype: OrderType, limit: int, qty: int)
    requires Sound(b) && LiveExact(b) && id !in b.live
    ensures VolumeAgainst(SubmitTrades(b, id, s, otype, limit, qty), id) == 0
  {
    hide Sweep, LiveExact;
    var opp := b.Of(Opposite(s));
    var band := Band(opp, otype.Market?, limit);
    NotResting(b, id);
    SweepMovesQty(opp, s, otype.Market?, limit, band, qty, id);
    SweepKeepsRank(opp, s, otype.Market?, limit, band, qty);
    QtyNonNegative(SweepOf(b, s, otype, limit, qty).book, Opposite(s), id);
  }

  /** An order trades all the acceptable depth it can use, but for a fill-or-kill order that cannot be filled. */
  lemma UsesDepth(b: Book, id: string, s: Side, otype: OrderType, limit: int, qty: int)
    requires Sound(b) && 0 < qty
    ensures var depth := Depth(b.Of(Opposite(s)), s, otype.Market?, limit);
      Volume(SubmitTrades(b, id, s, otype, limit, qty)) == if otype.FillOrKill? && depth < qty then 0 else Min(qty, depth)
    ensures SweepOf(b, s, otype, limit, qty).left + Volume(SweepOf(b, s, otype, limit, qty).trades) == qty
  {
    hide Sweep, Depth;
    var opp := b.Of(Opposite(s));
    SweepLeavesShortfall(opp, s, otype.Market?, limit, Band(opp, otype.Market?, limit), qty);
    SweepConserves(opp, s, otype.Market?, limit, Band(opp, otype.Market?, limit), qty);
  }

  /**
   Of what an order could not trade a market, fill-and-kill or fill-or-kill order keeps nothing in the book, and any other
   order rests with exactly that at its own price.
   */
  lemma WhatRests(b: Book, id: string, s: Side, otype: OrderType, limit: int, qty: int)
    requires Sound(b) && LiveExact(b) && id !in b.live && 0 < qty
    ensures var b' := Submit(b, id, s, otype, limit, qty);
      var left := qty - Volume(SubmitTrades(b, id, s, otype, limit, qty));
      if otype.Market? || otype.FillAndKill? || otype.FillOrKill? || left == 0 then id !in b'.live && QtyOf(b', id) == 0
      else id in b'.live && b'.live[id] == Ref(s, limit) && QtyOf(b', id) == left
  {
    hide Sweep, Depth, QtyOf, VolumeAgainst, Sound, LiveExact, Volume, Consumed;
    var op := Place(id, s, otype, limit, qty);
    SubmitMovesQty(b, op, id);
    NotResting(b, id);
    SubmitKeepsSound(b, id, s, otype, limit, qty);
    QtyOfNonNegative(Submit(b, id, s, otype, limit, qty), id);
    UsesDepth(b, id, s, otype, limit, qty);
    NotTraded(b, id, s, otype, limit, qty);
  }

  // ----- the ledger of a run -----

  /** Where the quantity of one order has gone by the end of a run; `placed` is what was submitted under its id. */
  datatype Account = Account(placed: int, taken: int, given: int, cancelled: int, dropped: int)

  function Ledger(ops: seq<Op>, id: string): Account {
    if ops == [] then Account(0, 0, 0, 0, 0)
    else Entry(Ledger(ops[..|ops| - 1], id), Run(ops[..|ops| - 1]), ops[|ops| - 1], id)
  }

  predicate Balanced(l: Account, resting: int) {
    && l.placed == l.taken + l.given + resting + l.cancelled + l.dropped
    && 0 <= l.taken && 0 <= l.given && 0 <= resting && 0 <= l.cancelled && 0 <= l.dropped
    && (l.dropped != 0 ==> resting == 0 && l.cancelled == 0)
    && (l.cancelled != 0 ==> resting == 0)
  }

  predicate PositiveQuantities(ops: seq<Op>) {
    forall op :: op in ops && op.Place? ==> 0 < op.qty
  }

  function Entry(l: Account, b: Book, op: Op, id: string): Account {
    var mine := op.id == id;
    Account(
      l.placed + (if op.Place? && mine then op.qty else 0),
      l.taken + (if mine then Volume(TradesOf(b, op)) else 0),
      l.given + VolumeAgainst(TradesOf(b, op), id),
      l.cancelled + (if op.Pull? && mine then QtyOf(b, id) else 0),
      l.dropped + (if mine then DroppedBy(b, op) else 0))
  }

  lemma QtyOfNonNegative(b: Book, id: string)
    requires Sound(b)
    ensures 0 <= QtyOf(b, id)
  {
    QtyNonNegative(b.bids, Buy, id);
    QtyNonNegative(b.asks, Sell, id);
  }

  lemma PlaceBalances(l: Account, b: Book, op: Op, id: string)
    requires Sound(b) && op.Place? && 0 < op.qty
    requires Balanced(l, QtyOf(b, id))
    requires op.id == id ==> l.placed == 0
    ensures Balanced(Entry(l, b, op, id), QtyOf(Apply(b, op), id))
  {
    SubmitMovesQty(b, op, id);
    SubmitKeepsSound(b, op.id, op.side, op.otype, op.limit, op.qty);
    QtyOfNonNegative(Apply(b, op), id);
  }

  lemma PullBalances(l: Account, b: Book, op: Op, id: string)
    requires LiveExact(b) && op.Pull? && Balanced(l, QtyOf(b, id))
    ensures Balanced(Entry(l, b, op, id), QtyOf(Apply(b, op), id))
  {
    CancelRemovesQty(b, op.id, id);
  }

  lemma {:induction false} PlacedOnce(ops: seq<Op>, id: string)
    requires FreshIds(ops)
    ensures id !in PlacedIds(ops) ==> Ledger(ops, id).placed == 0
    ensures forall op :: op in ops && op.Place? && op.id == id ==> Ledger(ops, id).placed == op.qty
  {
    if ops != [] {
      PrefixFacts(ops);
      assert ops == ops[..|ops| - 1] + [ops[|ops| - 1]];
      PlacedOnce(ops[..|ops| - 1], id);
    }
  }

  lemma StepBalances(ops: seq<Op>, id: string)
    requires ops != [] && FreshIds(ops) && PositiveQuantities(ops)
    requires Balanced(Ledger(ops[..|ops| - 1], id), QtyOf(Run(ops[..|ops| - 1]), id))
    ensures Balanced(Ledger(ops, id), QtyOf(Run(ops), id))
  {
    var front, last := ops[..|ops| - 1], ops[|ops| - 1];
    PrefixFacts(ops);
    assert last in ops;
    PlacedOnce(front, id);
    var l, b := Ledger(front, id), Run(front);
    if last.Place? {
      RunIsSound(front);
      PlaceBalances(l, b, last, id);
    } else {
      RunIndexIsExact(front);
      PullBalances(l, b, last, id);
    }
    assert Ledger(ops, id) == Entry(l, b, last, id) && Run(ops) == Apply(b, last);
  }

  /**
   Conservation: every order's quantity was traded as aggressor, traded as maker, is still resting, was cancelled or
   was dropped, and at most one of the last three is non-zero.
   */
  lemma {:induction false} QuantityIsConserved(ops: seq<Op>, id: string)
    requires FreshIds(ops) && PositiveQuantities(ops)
    ensures Balanced(Ledger(ops, id), QtyOf(Run(ops), id))
    ensures forall op :: op in ops && op.Place? && op.id == id ==> Ledger(ops, id).placed == op.qty
  {
    if ops != [] {
      PrefixFacts(ops);
      assert forall op :: op in ops[..|ops| - 1] ==> op in ops;
      QuantityIsConserved(ops[..|ops| - 1], id);
      StepBalances(ops, id);
    }
    PlacedOnce(ops, id);
  }
}
