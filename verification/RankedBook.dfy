/**
 The order book as a value: each side is one list in priority order, best price first and, within a price,
 earliest arrival first. This is what the price-level book of `OrderBook` denotes.
 */
module RankedBook {
  import opened MarketTypes

  datatype Resting = Resting(id: string, price: int, qty: int)

  datatype Ref = Ref(side: Side, price: int)

  datatype Trade = Trade(maker: string, qty: int, makerPrice: int, aggLimit: int, aggMarket: bool)

  datatype Book = Book(bids: seq<Resting>, asks: seq<Resting>, live: map<string, Ref>) {
    function Of(s: Side): seq<Resting> {
      if s.Buy? then bids else asks
    }

    function With(s: Side, rs: seq<Resting>): Book {
      if s.Buy? then this.(bids := rs) else this.(asks := rs)
    }
  }

  const EMPTY := Book([], [], map[])

  function Ids(rs: seq<Resting>): set<string> {
    set r | r in rs :: r.id
  }

  // ----- matching -----

  datatype Swept = Swept(trades: seq<Trade>, book: seq<Resting>, left: int)

  function Prepend(trades: seq<Trade>, sw: Swept): Swept {
    Swept(trades + sw.trades, sw.book, sw.left)
  }

  /** An order once `m` of it traded: gone when filled, smaller otherwise. */
  function Reduced(r: Resting, m: int): seq<Resting> {
    if m == r.qty then [] else [r.(qty := r.qty - m)]
  }

  /** Walk the opposing list from its head while quantity is left and the head is acceptable. */
  function Sweep(opp: seq<Resting>, s: Side, market: bool, limit: int, band: int, qty: int): Swept
    decreases |opp|
  {
    if qty <= 0 || opp == [] || !Crosses(s, market, limit, opp[0].price) then
      Swept([], opp, qty)
    else
      var m := Min(qty, opp[0].qty);
      var t := Trade(opp[0].id, m, opp[0].price, band, market);
      if m == opp[0].qty then
        Prepend([t], Sweep(opp[1..], s, market, limit, band, qty - m))
      else
        Swept([t], Reduced(opp[0], m) + opp[1..], qty - m)
  }

  /** Total quantity resting at acceptable prices, wherever it stands in the list. */
  function Depth(opp: seq<Resting>, s: Side, market: bool, limit: int): int {
    if opp == [] then 0
    else (if Crosses(s, market, limit, opp[0].price) then opp[0].qty else 0) + Depth(opp[1..], s, market, limit)
  }

  /** The aggressor's end of the price band: its own limit, or for a market order the worst opposing price. */
  function Band(opp: seq<Resting>, market: bool, limit: int): int {
    if market && opp != [] then opp[|opp| - 1].price else limit
  }

  /** The orders a sweep consumed completely are the ones missing from the front of the list. */
  function Consumed(before: seq<Resting>, after: seq<Resting>): set<string> {
    if |after| <= |before| then Ids(before[..|before| - |after|]) else {}
  }

  // ----- resting and cancelling -----

  /** Insert behind every order whose price is at least as good. */
  function Insert(own: seq<Resting>, s: Side, r: Resting): seq<Resting> {
    if own == [] || Better(s, r.price, own[0].price) then [r] + own
    else [own[0]] + Insert(own[1..], s, r)
  }

  function RemoveFirst(own: seq<Resting>, id: string, price: int): seq<Resting> {
    if own == [] then []
    else if own[0].id == id && own[0].price == price then own[1..]
    else [own[0]] + RemoveFirst(own[1..], id, price)
  }

  function Rest(b: Book, id: string, s: Side, price: int, qty: int): Book {
    b.With(s, Insert(b.Of(s), s, Resting(id, price, qty))).(live := b.live[id := Ref(s, price)])
  }

  function CancelOrder(b: Book, id: string): Book {
    if id !in b.live then b
    else
      var ref := b.live[id];
      b.With(ref.side, RemoveFirst(b.Of(ref.side), id, ref.price)).(live := b.live - {id})
  }

  // ----- a whole order -----

  predicate Rests(otype: OrderType) {
    !otype.Market? && !otype.FillAndKill?
  }

  predicate Killed(b: Book, s: Side, otype: OrderType, limit: int, qty: int) {
    otype.FillOrKill? && 0 < qty && Depth(b.Of(Opposite(s)), s, false, limit) < qty
  }

  function SweepOf(b: Book, s: Side, otype: OrderType, limit: int, qty: int): Swept {
    var opp := b.Of(Opposite(s));
    Sweep(opp, s, otype.Market?, limit, Band(opp, otype.Market?, limit), qty)
  }

  function AfterSweep(b: Book, s: Side, sw: Swept): Book {
    var opp := b.Of(Opposite(s));
    b.With(Opposite(s), sw.book).(live := b.live - Consumed(opp, sw.book))
  }

  function Submit(b: Book, id: string, s: Side, otype: OrderType, limit: int, qty: int): Book {
    if Killed(b, s, otype, limit, qty) then b
    else
      var sw := SweepOf(b, s, otype, limit, qty);
      var swept := AfterSweep(b, s, sw);
      if 0 < sw.left && Rests(otype) then Rest(swept, id, s, limit, sw.left) else swept
  }

  function SubmitTrades(b: Book, id: string, s: Side, otype: OrderType, limit: int, qty: int): seq<Trade> {
    if Killed(b, s, otype, limit, qty) then [] else SweepOf(b, s, otype, limit, qty).trades
  }

  // ----- what a sound book looks like -----

  /** Positive quantities, in priority order: no order has a strictly better price than the one before it. */
  predicate InRank(rs: seq<Resting>, s: Side) {
    rs == [] || (
      && 0 < rs[0].qty
      && (1 < |rs| ==> !Better(s, rs[1].price, rs[0].price))
      && InRank(rs[1..], s))
  }

  /** The same but for quantities, of which none is negative. */
  predicate InOrder(rs: seq<Resting>, s: Side) {
    rs == [] || (
      && 0 <= rs[0].qty
      && (1 < |rs| ==> !Better(s, rs[1].price, rs[0].price))
      && InOrder(rs[1..], s))
  }

  predicate Uncrossed(b: Book) {
    b.bids != [] && b.asks != [] ==> b.bids[0].price < b.asks[0].price
  }

  /** Holds of every book the golden model can reach, on any input whatever. */
  predicate Sound(b: Book) {
    InRank(b.bids, Buy) && InRank(b.asks, Sell) && Uncrossed(b)
  }

  predicate DistinctIds(rs: seq<Resting>) {
    rs == [] || (rs[0].id !in Ids(rs[1..]) && DistinctIds(rs[1..]))
  }

  predicate LiveAt(live: map<string, Ref>, rs: seq<Resting>, s: Side) {
    forall r :: r in rs ==> r.id in live && live[r.id] == Ref(s, r.price)
  }

  predicate Indexed(live: map<string, Ref>, own: seq<Resting>, s: Side, other: seq<Resting>) {
    && DistinctIds(own) && DistinctIds(other) && Ids(own) !! Ids(other)
    && live.Keys == Ids(own) + Ids(other)
    && LiveAt(live, own, s) && LiveAt(live, other, Opposite(s))
  }

  /** `live` maps exactly the resting ids, each to the side and price it rests at, and no id rests twice. */
  predicate LiveExact(b: Book) {
    Indexed(b.live, b.bids, Buy, b.asks)
  }
}
