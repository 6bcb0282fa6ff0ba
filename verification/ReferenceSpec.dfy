/**
 The sample server's engine on ranked lists: an incoming order is first inserted on its own side, then best bid and
 best ask trade for as long as they cross. The matching step is its own: the golden model matches before it rests and
 never looks at the order's own side. Inserting into and removing from a ranked side are the same in both.
 */
module ReferenceSpec {
  import opened MarketTypes
  import opened RankedBook
  import opened BookLaws
  import opened BookRuns

  datatype CrossTrade = CrossTrade(bidId: string, bidPrice: int, askId: string, askPrice: int, qty: int)

  datatype Crossed = Crossed(trades: seq<CrossTrade>, bids: seq<Resting>, asks: seq<Resting>)

  /** Trade the two heads against each other while they cross. */
  function Cross(bids: seq<Resting>, asks: seq<Resting>): Crossed
    decreases |bids| + |asks|
  {
    if bids == [] || asks == [] || bids[0].price < asks[0].price then Crossed([], bids, asks)
    else
      var q := Min(bids[0].qty, asks[0].qty);
      var r := Cross(Reduced(bids[0], q) + bids[1..], Reduced(asks[0], q) + asks[1..]);
      Crossed([CrossTrade(bids[0].id, bids[0].price, asks[0].id, asks[0].price, q)] + r.trades, r.bids, r.asks)
  }

  function Sided(s: Side, own: seq<Resting>, opp: seq<Resting>): Crossed {
    if s.Buy? then Cross(own, opp) else Cross(opp, own)
  }

  function SideOf(c: Crossed, s: Side): seq<Resting> {
    if s.Buy? then c.bids else c.asks
  }

  /** What `AddOrder` leaves: the book, the trades, and whether it then tries to lock the mutex it already holds. */
  datatype Added = Added(book: Book, trades: seq<CrossTrade>, stuck: bool)

  function InsertThenCross(b: Book, id: string, s: Side, price: int, qty: int): Added {
    var own := Insert(b.Of(s), s, Resting(id, price, qty));
    var opp := b.Of(Opposite(s));
    var c := Sided(s, own, opp);
    var live := b.live[id := Ref(s, price)];
    Added(Book(c.bids, c.asks, live - Consumed(own, SideOf(c, s)) - Consumed(opp, SideOf(c, Opposite(s)))), c.trades, false)
  }

  /** Some order stands at an acceptable price, and all that do cover the quantity. */
  predicate Fillable(opp: seq<Resting>, s: Side, limit: int, qty: int) {
    opp != [] && Crosses(s, false, limit, opp[0].price) && qty <= Depth(opp, s, false, limit)
  }

  function AddOrder(b: Book, id: string, s: Side, otype: OrderType, limit: int, qty: int): Added {
    var opp := b.Of(Opposite(s));
    if id in b.live then Added(b, [], false)
    else match otype
      case Market =>
        if opp == [] then Added(b, [], false) else InsertThenCross(b, id, s, opp[|opp| - 1].price, qty)
      case FillAndKill =>
        if opp == [] || !Crosses(s, false, limit, opp[0].price) then Added(b, [], false)
        else
          var r := InsertThenCross(b, id, s, limit, qty);
          r.(stuck := r.book.Of(s) != [] && r.book.Of(s)[0].id == id)
      case FillOrKill =>
        if !Fillable(opp, s, limit, qty) then Added(b, [], false) else InsertThenCross(b, id, s, limit, qty)
      case _ => InsertThenCross(b, id, s, limit, qty)
  }

  // ----- crossing after an insertion is a sweep -----

  /** A trade of the golden model as the sample server lists it. */
  function AsCross(s: Side, id: string, limit: int, t: Trade): CrossTrade {
    if s.Buy? then CrossTrade(id, limit, t.maker, t.makerPrice, t.qty)
    else CrossTrade(t.maker, t.makerPrice, id, limit, t.qty)
  }

  function AsCrosses(s: Side, id: string, limit: int, ts: seq<Trade>): seq<CrossTrade> {
    if ts == [] then [] else [AsCross(s, id, limit, ts[0])] + AsCrosses(s, id, limit, ts[1..])
  }

  ghost predicate Apart(s: Side, own: seq<Resting>, opp: seq<Resting>) {
    own != [] && opp != [] ==> !Crosses(s, false, own[0].price, opp[0].price)
  }

  lemma ApartStops(s: Side, own: seq<Resting>, opp: seq<Resting>)
    requires Apart(s, own, opp)
    ensures Sided(s, own, opp) == if s.Buy? then Crossed([], own, opp) else Crossed([], opp, own)
  {
  }

  /** The heads trade once and the rest goes on. */
  lemma HeadsTrade(s: Side, r: Resting, own: seq<Resting>, opp: seq<Resting>)
    requires opp != [] && Crosses(s, false, r.price, opp[0].price)
    ensures var q := Min(r.qty, opp[0].qty);
      var t := Trade(opp[0].id, q, opp[0].price, r.price, false);
      var next := Sided(s, Reduced(r, q) + own, Reduced(opp[0], q) + opp[1..]);
      Sided(s, [r] + own, opp) == Crossed([AsCross(s, r.id, r.price, t)] + next.trades, next.bids, next.asks)
  {
    assert ([r] + own)[1..] == own;
  }

  function Remainder(r: Resting, left: int): seq<Resting> {
    if 0 < left then [r.(qty := left)] else []
  }

  lemma AsCrossesCons(s: Side, id: string, limit: int, t: Trade, ts: seq<Trade>)
    ensures AsCrosses(s, id, limit, [t] + ts) == [AsCross(s, id, limit, t)] + AsCrosses(s, id, limit, ts)
  {
    assert ([t] + ts)[1..] == ts;
  }

  ghost predicate CrossedLike(s: Side, r: Resting, own: seq<Resting>, opp: seq<Resting>, sw: Swept) {
    var c := Sided(s, [r] + own, opp);
    && c.trades == AsCrosses(s, r.id, r.price, sw.trades)
    && SideOf(c, s) == Remainder(r, sw.left) + own
    && SideOf(c, Opposite(s)) == sw.book
  }

  /** With the newcomer at the head of its side, crossing the two sides is sweeping the opposing one. */
  lemma {:induction false} CrossIsSweep(s: Side, r: Resting, own: seq<Resting>, opp: seq<Resting>)
    requires 0 < r.qty && InRank(opp, Opposite(s)) && Apart(s, own, opp)
    ensures CrossedLike(s, r, own, opp, Sweep(opp, s, false, r.price, r.price, r.qty))
    decreases |opp|
  {
    hide Cross;
    if opp == [] || !Crosses(s, false, r.price, opp[0].price) {
      ApartStops(s, [r] + own, opp);
    } else {
      if opp[0].qty < r.qty {
        hide CrossedLike, Sweep;
        CrossIsSweep(s, r.(qty := r.qty - opp[0].qty), own, opp[1..]);
        WholeMaker(s, r, own, opp);
      } else {
        LastMaker(s, r, own, opp);
      }
    }
  }

  /** The first maker is filled and the newcomer goes on. */
  lemma WholeMaker(s: Side, r: Resting, own: seq<Resting>, opp: seq<Resting>)
    requires opp != [] && Crosses(s, false, r.price, opp[0].price) && 0 < opp[0].qty < r.qty
    requires CrossedLike(s, r.(qty := r.qty - opp[0].qty), own, opp[1..],
                         Sweep(opp[1..], s, false, r.price, r.price, r.qty - opp[0].qty))
    ensures CrossedLike(s, r, own, opp, Sweep(opp, s, false, r.price, r.price, r.qty))
  {
    hide Sided, Sweep, AsCrosses;
    var q := opp[0].qty;
    var r' := r.(qty := r.qty - q);
    var t := Trade(opp[0].id, q, opp[0].price, r.price, false);
    var sw := Sweep(opp[1..], s, false, r.price, r.price, r.qty - q);
    HeadsTrade(s, r, own, opp);
    assert [] + opp[1..] == opp[1..];
    AsCrossesCons(s, r.id, r.price, t, sw.trades);
    SameRemainder(r, r', sw.left);
    SameCrosses(s, r, r', sw.trades);
    SweepHead(opp, s, r.price, r.qty);
  }

  lemma SweepHead(opp: seq<Resting>, s: Side, price: int, qty: int)
    requires opp != [] && Crosses(s, false, price, opp[0].price) && 0 < opp[0].qty < qty
    ensures var t := Trade(opp[0].id, opp[0].qty, opp[0].price, price, false);
      Sweep(opp, s, false, price, price, qty) == Prepend([t], Sweep(opp[1..], s, false, price, price, qty - opp[0].qty))
  {
  }

  /** The newcomer is filled by the first maker. */
  lemma LastMaker(s: Side, r: Resting, own: seq<Resting>, opp: seq<Resting>)
    requires opp != [] && Crosses(s, false, r.price, opp[0].price) && 0 < r.qty <= opp[0].qty
    requires InRank(opp, Opposite(s)) && Apart(s, own, opp)
    ensures CrossedLike(s, r, own, opp, Sweep(opp, s, false, r.price, r.price, r.qty))
  {
    hide Cross;
    var q := r.qty;
    var t := Trade(opp[0].id, q, opp[0].price, r.price, false);
    HeadsTrade(s, r, own, opp);
    assert [] + opp[1..] == opp[1..] && [] + own == own;
    ApartStops(s, own, Reduced(opp[0], q) + opp[1..]);
    AsCrossesCons(s, r.id, r.price, t, []);
    assert [t] + [] == [t];
  }

  lemma SameRemainder(r: Resting, r': Resting, left: int)
    requires r'.id == r.id && r'.price == r.price
    ensures Remainder(r', left) == Remainder(r, left)
  {
  }

  lemma SameCrosses(s: Side, r: Resting, r': Resting, ts: seq<Trade>)
    requires r'.id == r.id && r'.price == r.price
    ensures AsCrosses(s, r'.id, r'.price, ts) == AsCrosses(s, r.id, r.price, ts)
  {
  }

  // ----- one order on both engines -----

  function PlainSweep(b: Book, s: Side, price: int, qty: int): Swept {
    Sweep(b.Of(Opposite(s)), s, false, price, price, qty)
  }

  function SweepThenRest(b: Book, id: string, s: Side, price: int, sw: Swept): Book {
    if 0 < sw.left then Rest(AfterSweep(b, s, sw), id, s, price, sw.left) else AfterSweep(b, s, sw)
  }

  lemma ConsumedNone(rs: seq<Resting>)
    ensures Consumed(rs, rs) == {}
  {
  }

  lemma ConsumedHead(r: Resting, own: seq<Resting>)
    ensures Consumed([r] + own, own) == {r.id}
  {
    assert ([r] + own)[..1] == [r];
  }

  lemma SoundIsUncrossed(b: Book)
    requires Sound(b)
    ensures Uncrossed(b)
  {
  }

  lemma NewcomerLeads(b: Book, id: string, s: Side, price: int, qty: int)
    requires Uncrossed(b) && b.Of(Opposite(s)) != [] && Crosses(s, false, price, b.Of(Opposite(s))[0].price)
    ensures Insert(b.Of(s), s, Resting(id, price, qty)) == [Resting(id, price, qty)] + b.Of(s)
    ensures Apart(s, b.Of(s), b.Of(Opposite(s)))
  {
  }

  /** The newcomer crosses, trades, and what is left of it rests at the head of its side. */
  lemma CrossingNewcomer(b: Book, id: string, s: Side, price: int, qty: int)
    requires Sound(b) && LiveExact(b) && id !in b.live && 0 < qty
    requires b.Of(Opposite(s)) != [] && Crosses(s, false, price, b.Of(Opposite(s))[0].price)
    ensures var sw := PlainSweep(b, s, price, qty);
      InsertThenCross(b, id, s, price, qty) == Added(SweepThenRest(b, id, s, price, sw), AsCrosses(s, id, price, sw.trades), false)
  {
    hide Sided, Insert, Sweep, Sound, LiveExact, AsCrosses, Consumed;
    var r := Resting(id, price, qty);
    var own, opp := b.Of(s), b.Of(Opposite(s));
    var sw := PlainSweep(b, s, price, qty);
    SoundIsUncrossed(b);
    NewcomerLeads(b, id, s, price, qty);
    SoundSide(b, Opposite(s));
    CrossIsSweep(s, r, own, opp);
    CrossingLive(b, r, s, sw);
    if 0 < sw.left {
      NewcomerLeads(b, id, s, price, sw.left);
    } else {
      assert [] + own == own;
    }
  }

  lemma SoundSide(b: Book, s: Side)
    requires Sound(b)
    ensures InRank(b.Of(s), s)
  {
  }

  /** The index loses exactly the consumed makers, and the newcomer too when it was filled. */
  lemma CrossingLive(b: Book, r: Resting, s: Side, sw: Swept)
    requires LiveExact(b) && r.id !in b.live
    ensures var live := b.live[r.id := Ref(s, r.price)] - Consumed([r] + b.Of(s), Remainder(r, sw.left) + b.Of(s));
      live - Consumed(b.Of(Opposite(s)), sw.book)
        == if 0 < sw.left then (b.live - Consumed(b.Of(Opposite(s)), sw.book))[r.id := Ref(s, r.price)]
           else b.live - Consumed(b.Of(Opposite(s)), sw.book)
  {
    hide LiveExact, Consumed;
    NotConsumed(b, s, r.id, sw.book);
    if 0 < sw.left {
      ConsumedHeadReduced(r, sw.left, b.Of(s));
    } else {
      assert [] + b.Of(s) == b.Of(s);
      ConsumedHead(r, b.Of(s));
    }
  }

  lemma ConsumedHeadReduced(r: Resting, left: int, own: seq<Resting>)
    ensures Consumed([r] + own, [r.(qty := left)] + own) == {}
  {
    assert ([r] + own)[..0] == [];
  }

  lemma NotConsumed(b: Book, s: Side, id: string, after: seq<Resting>)
    requires LiveExact(b) && id !in b.live
    ensures id !in Consumed(b.Of(Opposite(s)), after)
  {
    hide DistinctIds, LiveAt;
    var opp := b.Of(Opposite(s));
    if |after| <= |opp| {
      SplitIds(opp, |opp| - |after|);
    }
  }

  lemma RestingNewcomer(b: Book, id: string, s: Side, price: int, qty: int)
    requires Sound(b) && LiveExact(b) && id !in b.live && 0 < qty
    requires b.Of(Opposite(s)) == [] || !Crosses(s, false, price, b.Of(Opposite(s))[0].price)
    ensures PlainSweep(b, s, price, qty) == Swept([], b.Of(Opposite(s)), qty)
    ensures InsertThenCross(b, id, s, price, qty) == Added(SweepThenRest(b, id, s, price, PlainSweep(b, s, price, qty)), [], false)
  {
    hide Cross, DistinctIds, LiveAt;
    var r := Resting(id, price, qty);
    var own, opp := b.Of(s), b.Of(Opposite(s));
    InsertKeepsRank(own, s, r);
    ApartStops(s, Insert(own, s, r), opp);
    ConsumedNone(opp);
    ConsumedNone(Insert(own, s, r));
    assert b.live - {} == b.live;
  }

  /** Insert-then-cross is match-then-rest. */
  lemma InsertThenCrossIsMatchThenRest(b: Book, id: string, s: Side, price: int, qty: int)
    requires Sound(b) && LiveExact(b) && id !in b.live && 0 < qty
    ensures var sw := PlainSweep(b, s, price, qty);
      InsertThenCross(b, id, s, price, qty) == Added(SweepThenRest(b, id, s, price, sw), AsCrosses(s, id, price, sw.trades), false)
  {
    hide InsertThenCross, SweepThenRest, Sound, LiveExact;
    if b.Of(Opposite(s)) == [] || !Crosses(s, false, price, b.Of(Opposite(s))[0].price) {
      RestingNewcomer(b, id, s, price, qty);
    } else {
      CrossingNewcomer(b, id, s, price, qty);
    }
  }

  // ----- market orders -----

  /** A market sweep is a limit sweep at the worst opposing price. */
  lemma {:induction false} MarketIsLimit(opp: seq<Resting>, s: Side, limit: int, w: int, qty: int, id: string)
    requires forall i :: 0 <= i < |opp| ==> Crosses(s, false, w, opp[i].price)
    ensures var m := Sweep(opp, s, true, limit, w, qty);
      var l := Sweep(opp, s, false, w, w, qty);
      m.book == l.book && m.left == l.left && AsCrosses(s, id, w, m.trades) == AsCrosses(s, id, w, l.trades)
  {
    if 0 < qty && opp != [] {
      var q := Min(qty, opp[0].qty);
      var tm, tl := Trade(opp[0].id, q, opp[0].price, w, true), Trade(opp[0].id, q, opp[0].price, w, false);
      if q == opp[0].qty {
        MarketIsLimit(opp[1..], s, limit, w, qty - q, id);
        AsCrossesCons(s, id, w, tm, Sweep(opp[1..], s, true, limit, w, qty - q).trades);
        AsCrossesCons(s, id, w, tl, Sweep(opp[1..], s, false, w, w, qty - q).trades);
      } else {
        assert [tm][1..] == [] && [tl][1..] == [];
      }
    }
  }

  lemma WorstAccepted(b: Book, s: Side)
    requires Sound(b) && b.Of(Opposite(s)) != []
    ensures var opp := b.Of(Opposite(s)); forall i :: 0 <= i < |opp| ==> Crosses(s, false, opp[|opp| - 1].price, opp[i].price)
  {
    var opp := b.Of(Opposite(s));
    forall i | 0 <= i < |opp| ensures Crosses(s, false, opp[|opp| - 1].price, opp[i].price) {
      LastIsWorst(opp, Opposite(s), i);
    }
  }
}
