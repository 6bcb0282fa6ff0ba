/**
 Price-time priority as a textbook states it: each side is a list in order of arrival, and an aggressor trades with
 the order of best price that arrived first. The ranked book, and so the golden model, refines it.
 */
module PriceTime {
  import opened MarketTypes
  import opened RankedBook
  import opened BookLaws

  /** Order `i` has price-time priority over every other order of an arrival list. */
  predicate IsBest(arrived: seq<Resting>, s: Side, i: nat) {
    i < |arrived| && forall j :: 0 <= j < |arrived| && j != i ==>
      Better(s, arrived[i].price, arrived[j].price) || (arrived[i].price == arrived[j].price && i < j)
  }

  function Best(arrived: seq<Resting>, s: Side): (i: nat)
    requires arrived != []
    ensures IsBest(arrived, s, i)
  {
    var n := |arrived| - 1;
    if n == 0 then 0
    else
      var front := arrived[..n];
      var i := Best(front, s);
      assert forall j :: 0 <= j < n ==> arrived[j] == front[j];
      if Better(s, arrived[n].price, front[i].price) then n else i
  }

  /** Only one order can have priority over all the others. */
  lemma BestIsUnique(arrived: seq<Resting>, s: Side, i: nat)
    requires IsBest(arrived, s, i)
    ensures i == Best(arrived, s)
  {
  }

  // ----- the textbook book -----

  datatype Arrivals = Arrivals(bids: seq<Resting>, asks: seq<Resting>) {
    function Of(s: Side): seq<Resting> {
      if s.Buy? then bids else asks
    }

    function With(s: Side, rs: seq<Resting>): Arrivals {
      if s.Buy? then this.(bids := rs) else this.(asks := rs)
    }
  }

  function Reduce(arrived: seq<Resting>, i: nat, m: int): seq<Resting>
    requires i < |arrived|
  {
    arrived[..i] + Reduced(arrived[i], m) + arrived[i + 1..]
  }

  /** Trade with the best order again and again while quantity is left and it is acceptable. */
  function TextSweep(opp: seq<Resting>, s: Side, market: bool, limit: int, band: int, qty: int): Swept
    decreases |opp|, qty
  {
    if qty <= 0 || opp == [] then Swept([], opp, qty)
    else
      var i := Best(opp, Opposite(s));
      if !Crosses(s, market, limit, opp[i].price) then Swept([], opp, qty)
      else
        var m := Min(qty, opp[i].qty);
        var t := Trade(opp[i].id, m, opp[i].price, band, market);
        if m <= 0 then Swept([], opp, qty)
        else
          Prepend([t], TextSweep(Reduce(opp, i, m), s, market, limit, band, qty - m))
  }

  /** The price no other order of the side is worse than. */
  function WorstPrice(arrived: seq<Resting>, s: Side): int
    requires arrived != []
  {
    if |arrived| == 1 then arrived[0].price
    else
      var w := WorstPrice(arrived[..|arrived| - 1], s);
      var p := arrived[|arrived| - 1].price;
      if Better(s, w, p) then p else w
  }

  function TextBand(opp: seq<Resting>, s: Side, market: bool, limit: int): int {
    if market && opp != [] then WorstPrice(opp, Opposite(s)) else limit
  }

  function Without(rs: seq<Resting>, id: string): seq<Resting> {
    if rs == [] then []
    else if rs[0].id == id then Without(rs[1..], id)
    else [rs[0]] + Without(rs[1..], id)
  }

  function TextSubmit(a: Arrivals, id: string, s: Side, otype: OrderType, limit: int, qty: int): (Arrivals,
                      seq<Trade>) {
    var opp := a.Of(Opposite(s));
    if otype.FillOrKill? && 0 < qty && Depth(opp, s, false, limit) < qty then (a, [])
    else
      var sw := TextSweepOf(a, s, otype, limit, qty);
      var swept := a.With(Opposite(s), sw.book);
      if 0 < sw.left && Rests(otype) then (swept.With(s, a.Of(s) + [Resting(id, limit, sw.left)]), sw.trades)
      else (swept, sw.trades)
  }

  function TextCancel(a: Arrivals, id: string): Arrivals {
    Arrivals(Without(a.bids, id), Without(a.asks, id))
  }

  // ----- ranking an arrival list -----

  /** Stable sort by price: each arrival goes behind everything that is at least as good. */
  function Rank(arrived: seq<Resting>, s: Side): seq<Resting> {
    if arrived == [] then []
    else Insert(Rank(arrived[..|arrived| - 1], s), s, arrived[|arrived| - 1])
  }

  predicate AllPositive(rs: seq<Resting>) {
    forall r :: r in rs ==> 0 < r.qty
  }

  lemma {:induction false} RankInRank(arrived: seq<Resting>, s: Side)
    requires AllPositive(arrived)
    ensures InRank(Rank(arrived, s), s) && |Rank(arrived, s)| == |arrived|
  {
    if arrived != [] {
      var n := |arrived| - 1;
      RankInRank(arrived[..n], s);
      InsertKeepsRank(Rank(arrived[..n], s), s, arrived[n]);
      var k := InsertAt(Rank(arrived[..n], s), s, arrived[n]);
    }
  }

  lemma {:induction false} RankHead(arrived: seq<Resting>, s: Side)
    requires arrived != []
    ensures Rank(arrived, s) != [] && Rank(arrived, s)[0] == arrived[Best(arrived, s)]
  {
    var n := |arrived| - 1;
    if n == 0 {
      assert arrived[..n] == [];
    } else {
      RankHead(arrived[..n], s);
    }
  }

  lemma RankSnoc(a: seq<Resting>, x: Resting, s: Side)
    ensures Rank(a + [x], s) == Insert(Rank(a, s), s, x)
  {
    assert (a + [x])[..|a|] == a;
  }

  lemma InsertAfterHead(h: Resting, m: int, tail: seq<Resting>, s: Side, x: Resting)
    requires !Better(s, x.price, h.price)
    ensures Insert([h] + tail, s, x) == [h] + Insert(tail, s, x)
    ensures Insert(Reduced(h, m) + tail, s, x) == Reduced(h, m) + Insert(tail, s, x)
  {
    assert ([h] + tail)[1..] == tail;
    if m == h.qty {
      assert Reduced(h, m) + tail == tail;
    } else {
      assert (Reduced(h, m) + tail)[1..] == tail;
    }
  }

  lemma ReduceFront(front: seq<Resting>, x: Resting, i: nat, m: int)
    requires i < |front|
    ensures Reduce(front + [x], i, m) == Reduce(front, i, m) + [x]
  {
    var arrived := front + [x];
    assert arrived[i + 1..] == front[i + 1..] + [x] && arrived[..i] == front[..i];
  }

  lemma {:induction false} RankReduce(arrived: seq<Resting>, s: Side, m: int)
    requires arrived != []
    ensures var i := Best(arrived, s);
      Rank(arrived, s) != [] && Rank(Reduce(arrived, i, m), s) == Reduced(arrived[i], m) + Rank(arrived, s)[1..]
  {
    RankHead(arrived, s);
    var n := |arrived| - 1;
    var i, x, front := Best(arrived, s), arrived[n], arrived[..n];
    assert arrived == front + [x];
    RankSnoc(front, x, s);
    if i == n {
      LastIsBest(front, x, s, m);
    } else {
      RankReduce(front, s, m);
      RankHead(front, s);
      ReduceFront(front, x, i, m);
      RankSnoc(Reduce(front, i, m), x, s);
      var r := Rank(front, s);
      assert r == [r[0]] + r[1..];
      InsertAfterHead(r[0], m, r[1..], s, x);
    }
  }

  lemma LastIsBest(front: seq<Resting>, x: Resting, s: Side, m: int)
    requires Best(front + [x], s) == |front|
    ensures Rank(front + [x], s) == [x] + Rank(front, s)
    ensures Rank(Reduce(front + [x], |front|, m), s) == Reduced(x, m) + Rank(front, s)
  {
    var arrived := front + [x];
    RankSnoc(front, x, s);
    if front != [] {
      RankHead(front, s);
      assert arrived[..|front|] == front;
    }
    assert Reduce(arrived, |front|, m) == front + Reduced(x, m);
    if m == x.qty {
      assert front + [] == front;
    } else {
      RankSnoc(front, x.(qty := x.qty - m), s);
    }
  }

  // ----- the refinement -----

  lemma AllPositiveReduce(opp: seq<Resting>, i: nat, m: int)
    requires AllPositive(opp) && i < |opp| && m <= opp[i].qty
    ensures AllPositive(Reduce(opp, i, m))
  {
  }

  /** Sweeping the ranked list is trading with the best order of the arrival list, again and again. */
  lemma {:induction false} SweepRefinesText(opp: seq<Resting>, s: Side, market: bool, limit: int, band: int, qty: int)
    requires AllPositive(opp)
    ensures var text := TextSweep(opp, s, market, limit, band, qty);
      && AllPositive(text.book)
      && Sweep(Rank(opp, Opposite(s)), s, market, limit, band, qty) == Swept(text.trades, Rank(text.book, Opposite(s)), text.left)
    decreases |opp|, qty
  {
    if 0 < qty && opp != [] {
      var i := Best(opp, Opposite(s));
      RankHead(opp, Opposite(s));
      if Crosses(s, market, limit, opp[i].price) {
        var m := Min(qty, opp[i].qty);
        assert opp[i] in opp;
        AllPositiveReduce(opp, i, m);
        RankReduce(opp, Opposite(s), m);
        RankInRank(opp, Opposite(s));
        SweepStep(Rank(opp, Opposite(s)), s, market, limit, band, qty);
        SweepRefinesText(Reduce(opp, i, m), s, market, limit, band, qty - m);
      }
    }
  }

  lemma {:induction false} RankDepth(arrived: seq<Resting>, own: Side, s: Side, market: bool, limit: int)
    ensures Depth(Rank(arrived, own), s, market, limit) == Depth(arrived, s, market, limit)
  {
    if arrived != [] {
      var n := |arrived| - 1;
      RankDepth(arrived[..n], own, s, market, limit);
      InsertDepth(Rank(arrived[..n], own), own, arrived[n], s, market, limit);
      DepthConcat(arrived[..n], [arrived[n]], s, market, limit);
      assert arrived[..n] + [arrived[n]] == arrived;
    }
  }

  lemma {:induction false} InsertDepth(own: seq<Resting>, side: Side, r: Resting, s: Side, market: bool, limit: int)
    ensures Depth(Insert(own, side, r), s, market, limit) == Depth(own, s, market, limit) + Depth([r], s, market, limit)
  {
    if own == [] || Better(side, r.price, own[0].price) {
      DepthConcat([r], own, s, market, limit);
    } else {
      InsertDepth(own[1..], side, r, s, market, limit);
      DepthConcat([own[0]], Insert(own[1..], side, r), s, market, limit);
      DepthConcat([own[0]], own[1..], s, market, limit);
      assert [own[0]] + own[1..] == own;
    }
  }

  /** The last order of the ranked list carries the worst price. */
  lemma {:induction false} RankLast(arrived: seq<Resting>, s: Side)
    requires arrived != [] && AllPositive(arrived)
    ensures var r := Rank(arrived, s); r != [] && r[|r| - 1].price == WorstPrice(arrived, s)
  {
    var n := |arrived| - 1;
    if n == 0 {
      assert arrived[..n] == [];
    } else {
      RankLast(arrived[..n], s);
      RankInRank(arrived[..n], s);
      InsertLast(Rank(arrived[..n], s), s, arrived[n]);
    }
  }

  lemma {:induction false} InsertLast(own: seq<Resting>, s: Side, r: Resting)
    requires own != [] && InRank(own, s)
    ensures var out := Insert(own, s, r);
      var w := own[|own| - 1].price;
      && !Better(s, w, own[0].price)
      && out != [] && out[|out| - 1].price == (if Better(s, w, r.price) then r.price else w)
  {
    if |own| > 1 {
      InsertLast(own[1..], s, r);
    }
  }

  // ----- cancelling -----

  lemma {:induction false} WithoutConcat(a: seq<Resting>, b: seq<Resting>, id: string)
    ensures Without(a + b, id) == Without(a, id) + Without(b, id)
  {
    if a == [] {
      assert a + b == b;
    } else {
      assert (a + b)[1..] == a[1..] + b;
      WithoutConcat(a[1..], b, id);
    }
  }

  lemma {:induction false} WithoutAbsent(rs: seq<Resting>, id: string)
    requires id !in Ids(rs)
    ensures Without(rs, id) == rs
  {
    if rs != [] {
      assert rs[0].id in Ids(rs);
      IdsConcat([rs[0]], rs[1..]);
      assert [rs[0]] + rs[1..] == rs;
      WithoutAbsent(rs[1..], id);
    }
  }

  /** On a list without repeated ids, removing the first match removes them all. */
  lemma {:induction false} RemoveIsWithout(rs: seq<Resting>, id: string, price: int)
    requires DistinctIds(rs)
    requires forall r :: r in rs && r.id == id ==> r.price == price
    ensures RemoveFirst(rs, id, price) == Without(rs, id)
  {
    if rs != [] {
      if rs[0].id == id {
        assert rs[0] in rs;
        WithoutAbsent(rs[1..], id);
      } else {
        RemoveIsWithout(rs[1..], id, price);
      }
    }
  }

  lemma {:induction false} WithoutRank(rs: seq<Resting>, s: Side, id: string)
    requires InRank(rs, s)
    ensures InRank(Without(rs, id), s)
    ensures Without(rs, id) != [] ==> rs != [] && !Better(s, Without(rs, id)[0].price, rs[0].price)
  {
    if rs != [] {
      WithoutRank(rs[1..], s, id);
      if rs[0].id != id {
        assert Without(rs, id)[1..] == Without(rs[1..], id);
      }
    }
  }

  lemma {:induction false} WithoutInsert(rs: seq<Resting>, s: Side, x: Resting, id: string)
    requires InRank(rs, s)
    ensures Without(Insert(rs, s, x), id) == if x.id == id then Without(rs, id) else Insert(Without(rs, id), s, x)
  {
    WithoutRank(rs, s, id);
    if rs == [] || Better(s, x.price, rs[0].price) {
      assert ([x] + rs)[1..] == rs;
    } else {
      WithoutInsert(rs[1..], s, x, id);
      assert Insert(rs, s, x)[1..] == Insert(rs[1..], s, x);
      if rs[0].id != id {
        assert Without(rs, id)[1..] == Without(rs[1..], id);
      }
    }
  }

  lemma {:induction false} RankWithout(arrived: seq<Resting>, s: Side, id: string)
    requires AllPositive(arrived)
    ensures AllPositive(Without(arrived, id))
    ensures Rank(Without(arrived, id), s) == Without(Rank(arrived, s), id)
  {
    if arrived != [] {
      var n := |arrived| - 1;
      RankWithout(arrived[..n], s, id);
      RankInRank(arrived[..n], s);
      WithoutInsert(Rank(arrived[..n], s), s, arrived[n], id);
      WithoutConcat(arrived[..n], [arrived[n]], id);
      assert arrived[..n] + [arrived[n]] == arrived;
      assert Without([arrived[n]], id) == if arrived[n].id == id then [] else [arrived[n]] by {
        assert Without([arrived[n]][1..], id) == [];
      }
      if arrived[n].id == id {
        assert Without(arrived[..n], id) + [] == Without(arrived[..n], id);
      } else {
        assert Without(arrived, id) == Without(arrived[..n], id) + [arrived[n]];
        RankSnoc(Without(arrived[..n], id), arrived[n], s);
      }
    }
  }

  // ----- whole orders and cancels -----

  ghost predicate RefinesSide(rs: seq<Resting>, arrived: seq<Resting>, s: Side) {
    AllPositive(arrived) && rs == Rank(arrived, s)
  }

  /** The golden book holds exactly the textbook's orders, ranked. */
  ghost predicate Refines(b: Book, a: Arrivals) {
    RefinesSide(b.bids, a.bids, Buy) && RefinesSide(b.asks, a.asks, Sell)
  }

  function TextSweepOf(a: Arrivals, s: Side, otype: OrderType, limit: int, qty: int): Swept {
    var opp := a.Of(Opposite(s));
    TextSweep(opp, s, otype.Market?, limit, TextBand(opp, s, otype.Market?, limit), qty)
  }

  lemma SweepOfIsText(b: Book, a: Arrivals, s: Side, otype: OrderType, limit: int, qty: int)
    requires Refines(b, a)
    ensures var text := TextSweepOf(a, s, otype, limit, qty);
      AllPositive(text.book) && SweepOf(b, s, otype, limit, qty) == Swept(text.trades, Rank(text.book, Opposite(s)), text.left)
  {
    var opp := a.Of(Opposite(s));
    if opp == [] {
      assert Rank(opp, Opposite(s)) == [];
    } else {
      RankLast(opp, Opposite(s));
    }
    SweepRefinesText(opp, s, otype.Market?, limit, TextBand(opp, s, otype.Market?, limit), qty);
  }

  /** Every order trades exactly as price-time priority dictates, and leaves the textbook's book behind. */
  lemma SubmitIsPriceTime(b: Book, a: Arrivals, id: string, s: Side, otype: OrderType, limit: int, qty: int)
    requires Refines(b, a)
    ensures var (a', trades) := TextSubmit(a, id, s, otype, limit, qty);
      Refines(Submit(b, id, s, otype, limit, qty), a') && SubmitTrades(b, id, s, otype, limit, qty) == trades
  {
    RankDepth(a.Of(Opposite(s)), Opposite(s), s, false, limit);
    if !Killed(b, s, otype, limit, qty) {
      SweepOfIsText(b, a, s, otype, limit, qty);
      var text := TextSweepOf(a, s, otype, limit, qty);
      var swept := AfterSweep(b, s, SweepOf(b, s, otype, limit, qty));
      assert RefinesSide(swept.Of(Opposite(s)), text.book, Opposite(s));
      if 0 < text.left && Rests(otype) {
        var r := Resting(id, limit, text.left);
        RankSnoc(a.Of(s), r, s);
        assert RefinesSide(Insert(b.Of(s), s, r), a.Of(s) + [r], s);
      }
    }
  }

  lemma CancelIsPriceTime(b: Book, a: Arrivals, id: string)
    requires Refines(b, a) && LiveExact(b)
    ensures Refines(CancelOrder(b, id), TextCancel(a, id))
  {
    RankWithout(a.bids, Buy, id);
    RankWithout(a.asks, Sell, id);
    if id in b.live {
      var s := b.live[id].side;
      RemoveIsWithout(b.Of(s), id, b.live[id].price);
      WithoutAbsent(b.Of(Opposite(s)), id);
    } else {
      WithoutAbsent(b.bids, id);
      WithoutAbsent(b.asks, id);
    }
  }
}
