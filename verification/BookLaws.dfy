/** What a sweep, an insertion and a removal do to one side of the book, and the invariants of the whole book. */
module BookLaws {
  import opened MarketTypes
  import opened RankedBook

  function Volume(ts: seq<Trade>): int {
    if ts == [] then 0 else ts[0].qty + Volume(ts[1..])
  }

  /** The part of some trades that one maker filled. */
  function VolumeAgainst(ts: seq<Trade>, id: string): int {
    if ts == [] then 0 else (if ts[0].maker == id then ts[0].qty else 0) + VolumeAgainst(ts[1..], id)
  }

  lemma AgainstCons(t: Trade, ts: seq<Trade>, id: string)
    ensures VolumeAgainst([t] + ts, id) == (if t.maker == id then t.qty else 0) + VolumeAgainst(ts, id)
  {
    assert ([t] + ts)[1..] == ts;
  }

  lemma {:induction false} AgainstConcat(a: seq<Trade>, b: seq<Trade>, id: string)
    ensures VolumeAgainst(a + b, id) == VolumeAgainst(a, id) + VolumeAgainst(b, id)
  {
    if a == [] {
      assert a + b == b;
    } else {
      assert (a + b)[1..] == a[1..] + b;
      AgainstConcat(a[1..], b, id);
    }
  }

  lemma {:induction false} VolumeConcat(a: seq<Trade>, b: seq<Trade>)
    ensures Volume(a + b) == Volume(a) + Volume(b)
  {
    if a == [] {
      assert a + b == b;
    } else {
      assert (a + b)[1..] == a[1..] + b;
      VolumeConcat(a[1..], b);
    }
  }

  // ----- sweeping -----

  lemma {:induction false} SweepConserves(opp: seq<Resting>, s: Side, market: bool, limit: int, band: int, qty: int)
    requires InRank(opp, Opposite(s))
    ensures var sw := Sweep(opp, s, market, limit, band, qty);
      Volume(sw.trades) + sw.left == qty && (0 <= qty ==> 0 <= sw.left)
  {
    if 0 < qty && opp != [] && Crosses(s, market, limit, opp[0].price) && opp[0].qty <= qty {
      SweepConserves(opp[1..], s, market, limit, band, qty - opp[0].qty);
      var r := Sweep(opp[1..], s, market, limit, band, qty - opp[0].qty);
      assert Sweep(opp, s, market, limit, band, qty).trades[1..] == r.trades;
    }
  }

  /** What stays behind is the list without its first `n` orders, the next one possibly reduced. */
  predicate LeavesFrom(opp: seq<Resting>, sw: Swept, n: nat) {
    && n <= |opp|
    && n <= |sw.trades| <= n + 1
    && (|sw.trades| == n ==> sw.book == opp[n..])
    && (|sw.trades| == n + 1 ==> (
          && n < |opp| && 0 < sw.trades[n].qty < opp[n].qty && sw.left == 0
          && sw.book == [opp[n].(qty := opp[n].qty - sw.trades[n].qty)] + opp[n + 1..]))
  }

  lemma LeavesFromCons(opp: seq<Resting>, t: Trade, sw: Swept, n: nat)
    requires opp != [] && LeavesFrom(opp[1..], sw, n)
    ensures LeavesFrom(opp, Prepend([t], sw), n + 1)
  {
    assert opp[1..][n..] == opp[n + 1..];
    if n < |opp[1..]| {
      assert opp[1..][n + 1..] == opp[n + 2..];
    }
  }

  lemma {:induction false} SweepBook(opp: seq<Resting>, s: Side, market: bool, limit: int, band: int, qty: int)
    returns (n: nat)
    requires InRank(opp, Opposite(s))
    ensures LeavesFrom(opp, Sweep(opp, s, market, limit, band, qty), n)
  {
    if 0 < qty && opp != [] && Crosses(s, market, limit, opp[0].price) && opp[0].qty <= qty {
      hide LeavesFrom;
      var n' := SweepBook(opp[1..], s, market, limit, band, qty - opp[0].qty);
      var t := Trade(opp[0].id, opp[0].qty, opp[0].price, band, market);
      LeavesFromCons(opp, t, Sweep(opp[1..], s, market, limit, band, qty - opp[0].qty), n');
      n := n' + 1;
    } else {
      n := 0;
    }
  }

  /** One trade at a time: the head of the list is filled or reduced and the sweep goes on. */
  lemma SweepStep(flat: seq<Resting>, s: Side, market: bool, limit: int, band: int, qty: int)
    requires InRank(flat, Opposite(s)) && flat != [] && 0 < qty && Crosses(s, market, limit, flat[0].price)
    ensures var m := Min(qty, flat[0].qty);
      Sweep(flat, s, market, limit, band, qty)
        == Prepend([Trade(flat[0].id, m, flat[0].price, band, market)],
                   Sweep(Reduced(flat[0], m) + flat[1..], s, market, limit, band, qty - m))
  {
    if flat[0].qty <= qty {
      assert Reduced(flat[0], flat[0].qty) + flat[1..] == flat[1..];
    }
  }

  predicate TradesWith(t: Trade, r: Resting, band: int, market: bool) {
    t == Trade(r.id, t.qty, r.price, band, market) && 0 < t.qty <= r.qty
  }

  /** The i-th trade is with the i-th order of the ranked list, at a price the aggressor accepts; all but the last are whole. */
  lemma {:induction false} SweepTrades(opp: seq<Resting>, s: Side, market: bool, limit: int, band: int, qty: int,
                        i: nat)
    requires InRank(opp, Opposite(s))
    requires i < |Sweep(opp, s, market, limit, band, qty).trades|
    ensures var ts := Sweep(opp, s, market, limit, band, qty).trades;
      && |ts| <= |opp|
      && TradesWith(ts[i], opp[i], band, market)
      && Crosses(s, market, limit, opp[i].price)
      && (i + 1 < |ts| ==> ts[i].qty == opp[i].qty)
  {
    if opp[0].qty <= qty && 0 < |Sweep(opp[1..], s, market, limit, band, qty - opp[0].qty).trades| {
      SweepTrades(opp[1..], s, market, limit, band, qty - opp[0].qty, if i == 0 then 0 else i - 1);
    }
  }

  lemma {:induction false} SweepStops(opp: seq<Resting>, s: Side, market: bool, limit: int, band: int, qty: int)
    requires InRank(opp, Opposite(s))
    ensures var sw := Sweep(opp, s, market, limit, band, qty);
      0 < sw.left && sw.book != [] ==> !Crosses(s, market, limit, sw.book[0].price)
  {
    if 0 < qty && opp != [] && Crosses(s, market, limit, opp[0].price) && opp[0].qty <= qty {
      SweepStops(opp[1..], s, market, limit, band, qty - opp[0].qty);
    }
  }

  lemma {:induction false} SweepKeepsRank(opp: seq<Resting>, s: Side, market: bool, limit: int, band: int, qty: int)
    requires InRank(opp, Opposite(s))
    ensures var book := Sweep(opp, s, market, limit, band, qty).book;
      && InRank(book, Opposite(s))
      && (book != [] ==> opp != [] && !Better(Opposite(s), book[0].price, opp[0].price))
  {
    if 0 < qty && opp != [] && Crosses(s, market, limit, opp[0].price) {
      if opp[0].qty <= qty {
        SweepKeepsRank(opp[1..], s, market, limit, band, qty - opp[0].qty);
      } else {
        var book := Sweep(opp, s, market, limit, band, qty).book;
        assert book[1..] == opp[1..];
      }
    }
  }

  // ----- depth -----

  lemma {:induction false} DepthConcat(a: seq<Resting>, b: seq<Resting>, s: Side, market: bool, limit: int)
    ensures Depth(a + b, s, market, limit) == Depth(a, s, market, limit) + Depth(b, s, market, limit)
  {
    if a == [] {
      assert a + b == b;
    } else {
      assert (a + b)[1..] == a[1..] + b;
      DepthConcat(a[1..], b, s, market, limit);
    }
  }

  lemma {:induction false} RankIsOrder(rs: seq<Resting>, s: Side)
    requires InRank(rs, s)
    ensures InOrder(rs, s)
  {
    if rs != [] {
      RankIsOrder(rs[1..], s);
    }
  }

  lemma {:induction false} DepthFacts(opp: seq<Resting>, s: Side, market: bool, limit: int)
    requires InOrder(opp, Opposite(s))
    ensures 0 <= Depth(opp, s, market, limit)
    ensures opp != [] && !Crosses(s, market, limit, opp[0].price) ==> Depth(opp, s, market, limit) == 0
  {
    if opp != [] {
      DepthFacts(opp[1..], s, market, limit);
    }
  }

  lemma RankedDepth(opp: seq<Resting>, s: Side, market: bool, limit: int)
    requires InRank(opp, Opposite(s))
    ensures 0 <= Depth(opp, s, market, limit)
    ensures opp != [] && !Crosses(s, market, limit, opp[0].price) ==> Depth(opp, s, market, limit) == 0
  {
    RankIsOrder(opp, Opposite(s));
    DepthFacts(opp, s, market, limit);
  }

  /** What a sweep leaves over is exactly the part of the order the acceptable depth cannot cover. */
  lemma {:induction false} SweepLeavesShortfall(opp: seq<Resting>, s: Side, market: bool, limit: int, band: int,
                        qty: int)
    requires InRank(opp, Opposite(s)) && 0 <= qty
    ensures var d := Depth(opp, s, market, limit);
      Sweep(opp, s, market, limit, band, qty).left == if qty <= d then 0 else qty - d
  {
    RankedDepth(opp, s, market, limit);
    if opp != [] {
      RankedDepth(opp[1..], s, market, limit);
      if 0 < qty && Crosses(s, market, limit, opp[0].price) && opp[0].qty <= qty {
        SweepLeavesShortfall(opp[1..], s, market, limit, band, qty - opp[0].qty);
      }
    }
  }

  // ----- inserting and removing -----

  lemma {:induction false} InsertAt(own: seq<Resting>, s: Side, r: Resting) returns (k: nat)
    ensures k <= |own|
    ensures Insert(own, s, r) == own[..k] + [r] + own[k..]
  {
    if own == [] || Better(s, r.price, own[0].price) {
      k := 0;
    } else {
      var k' := InsertAt(own[1..], s, r);
      k := k' + 1;
      assert own[..k] == [own[0]] + own[1..][..k'];
      assert own[k..] == own[1..][k'..];
    }
  }

  lemma {:induction false} InsertKeepsRank(own: seq<Resting>, s: Side, r: Resting)
    requires InRank(own, s) && 0 < r.qty
    ensures InRank(Insert(own, s, r), s)
    ensures Insert(own, s, r)[0] == r || (own != [] && Insert(own, s, r)[0] == own[0])
  {
    if own == [] || Better(s, r.price, own[0].price) {
      assert Insert(own, s, r)[1..] == own;
    } else {
      InsertKeepsRank(own[1..], s, r);
      assert Insert(own, s, r)[1..] == Insert(own[1..], s, r);
    }
  }

  lemma {:induction false} RemoveKeepsRank(own: seq<Resting>, s: Side, id: string, price: int)
    requires InRank(own, s)
    ensures var own' := RemoveFirst(own, id, price);
      InRank(own', s) && (own' != [] ==> own != [] && !Better(s, own'[0].price, own[0].price))
  {
    if own != [] && !(own[0].id == id && own[0].price == price) {
      RemoveKeepsRank(own[1..], s, id, price);
      assert RemoveFirst(own, id, price)[1..] == RemoveFirst(own[1..], id, price);
    }
  }

  lemma {:induction false} RemoveAt(own: seq<Resting>, id: string, price: int) returns (k: nat)
    ensures k <= |own|
    ensures k == |own| ==> RemoveFirst(own, id, price) == own && forall r :: r in own ==> !(r.id == id && r.price == price)
    ensures k < |own| ==> own[k].id == id && own[k].price == price && RemoveFirst(own, id, price) == own[..k] + own[k + 1..]
  {
    if own == [] {
      k := 0;
    } else if own[0].id == id && own[0].price == price {
      k := 0;
    } else {
      var k' := RemoveAt(own[1..], id, price);
      k := k' + 1;
      assert own == [own[0]] + own[1..];
      if k < |own| {
        assert own[..k] == [own[0]] + own[1..][..k'];
        assert own[k + 1..] == own[1..][k' + 1..];
      }
    }
  }

  // ----- every book is sound -----

  lemma SubmitKeepsSound(b: Book, id: string, s: Side, otype: OrderType, limit: int, qty: int)
    requires Sound(b)
    ensures Sound(Submit(b, id, s, otype, limit, qty))
  {
    if !Killed(b, s, otype, limit, qty) {
      var opp, market := b.Of(Opposite(s)), otype.Market?;
      var sw := SweepOf(b, s, otype, limit, qty);
      SweepKeepsRank(opp, s, market, limit, Band(opp, market, limit), qty);
      if 0 < sw.left && Rests(otype) {
        SweepStops(opp, s, market, limit, Band(opp, market, limit), qty);
        InsertKeepsRank(b.Of(s), s, Resting(id, limit, sw.left));
      }
    }
  }

  lemma CancelKeepsSound(b: Book, id: string)
    requires Sound(b)
    ensures Sound(CancelOrder(b, id))
  {
    if id in b.live {
      var ref := b.live[id];
      RemoveKeepsRank(b.Of(ref.side), ref.side, id, ref.price);
    }
  }

  // ----- the index of live orders is exact as long as ids are fresh -----

  lemma IdsConcat(a: seq<Resting>, b: seq<Resting>)
    ensures Ids(a + b) == Ids(a) + Ids(b)
  {
    assert forall r :: r in a + b <==> r in a || r in b;
  }

  lemma {:induction false} DistinctConcat(a: seq<Resting>, b: seq<Resting>)
    ensures DistinctIds(a + b) <==> DistinctIds(a) && DistinctIds(b) && Ids(a) !! Ids(b)
  {
    if a == [] {
      assert a + b == b;
    } else {
      assert (a + b)[1..] == a[1..] + b;
      IdsConcat(a[1..], b);
      IdsConcat([a[0]], a[1..]);
      assert [a[0]] + a[1..] == a;
      DistinctConcat(a[1..], b);
    }
  }

  lemma SplitIds(rs: seq<Resting>, k: nat)
    requires k <= |rs|
    ensures Ids(rs) == Ids(rs[..k]) + Ids(rs[k..])
    ensures DistinctIds(rs) <==> DistinctIds(rs[..k]) && DistinctIds(rs[k..]) && Ids(rs[..k]) !! Ids(rs[k..])
  {
    assert rs == rs[..k] + rs[k..];
    IdsConcat(rs[..k], rs[k..]);
    DistinctConcat(rs[..k], rs[k..]);
  }

  lemma LiveAtParts(live: map<string, Ref>, a: seq<Resting>, b: seq<Resting>, s: Side)
    ensures LiveAt(live, a + b, s) <==> LiveAt(live, a, s) && LiveAt(live, b, s)
  {
    assert forall r :: r in a + b <==> r in a || r in b;
  }

  lemma LiveAtShrinks(live: map<string, Ref>, gone: set<string>, rs: seq<Resting>, s: Side)
    requires LiveAt(live, rs, s) && gone !! Ids(rs)
    ensures LiveAt(live - gone, rs, s)
  {
    assert forall r :: r in rs ==> r.id in Ids(rs);
  }

  lemma SameIds(live: map<string, Ref>, rs: seq<Resting>, rs': seq<Resting>, s: Side)
    requires LiveAt(live, rs, s) && DistinctIds(rs)
    requires rs != [] && rs' != [] && rs'[1..] == rs[1..] && rs'[0].id == rs[0].id && rs'[0].price == rs[0].price
    ensures LiveAt(live, rs', s) && DistinctIds(rs') && Ids(rs') == Ids(rs)
  {
    assert rs == [rs[0]] + rs[1..] && rs' == [rs'[0]] + rs[1..];
    IdsConcat([rs[0]], rs[1..]);
    IdsConcat([rs'[0]], rs[1..]);
    LiveAtParts(live, [rs[0]], rs[1..], s);
    assert rs[0] in rs;
    LiveAtParts(live, [rs'[0]], rs[1..], s);
  }

  /** Dropping the first `n` orders, and perhaps reducing the next, keeps the index exact. */
  lemma SweptLive(live: map<string, Ref>, own: seq<Resting>, s: Side, other: seq<Resting>, n: nat, own': seq<Resting>)
    requires Indexed(live, own, s, other) && n <= |own|
    requires own' == own[n..] || (n < |own| && exists q :: own' == [own[n].(qty := q)] + own[n + 1..])
    ensures Indexed(live - Consumed(own, own'), own', s, other)
  {
    hide DistinctIds, Ids, LiveAt;
    var gone := Ids(own[..n]);
    SplitIds(own, n);
    LiveAtParts(live, own[..n], own[n..], s);
    assert own == own[..n] + own[n..];
    LiveAtShrinks(live, gone, own[n..], s);
    LiveAtShrinks(live, gone, other, Opposite(s));
    if own' != own[n..] {
      SameIds(live - gone, own[n..], own', s);
    }
    assert Consumed(own, own') == gone;
  }

  lemma InsertedIds(own: seq<Resting>, s: Side, r: Resting)
    ensures Ids(Insert(own, s, r)) == Ids(own) + {r.id}
    ensures DistinctIds(own) && r.id !in Ids(own) ==> DistinctIds(Insert(own, s, r))
    ensures forall x :: x in Insert(own, s, r) ==> x in own || x == r
  {
    hide DistinctIds, Ids, Insert;
    var k := InsertAt(own, s, r);
    SplitIds(own, k);
    DistinctConcat(own[..k] + [r], own[k..]);
    DistinctConcat(own[..k], [r]);
    IdsConcat(own[..k] + [r], own[k..]);
    IdsConcat(own[..k], [r]);
    OneDistinct(r);
  }

  lemma OneDistinct(r: Resting)
    ensures Ids([r]) == {r.id} && DistinctIds([r])
  {
    assert [r][0] in [r] && Ids([r][1..]) == {};
  }

  lemma RestLive(live: map<string, Ref>, own: seq<Resting>, s: Side, other: seq<Resting>, r: Resting)
    requires Indexed(live, own, s, other) && r.id !in live
    ensures Indexed(live[r.id := Ref(s, r.price)], Insert(own, s, r), s, other)
  {
    InsertedIds(own, s, r);
    assert forall x :: x in own ==> x.id in Ids(own);
    assert forall x :: x in other ==> x.id in Ids(other);
  }

  lemma RemoveLive(live: map<string, Ref>, own: seq<Resting>, s: Side, other: seq<Resting>, id: string)
    requires Indexed(live, own, s, other) && id in live && live[id].side == s
    ensures Indexed(live - {id}, RemoveFirst(own, id, live[id].price), s, other)
  {
    var k := RemoveAt(own, id, live[id].price);
    assert id in Ids(own) by {
      assert id in Ids(other) ==> exists x :: x in other && x.id == id;
    }
    assert k < |own|;
    SplitIds(own, k);
    SplitIds(own[k..], 1);
    assert own[k..][1..] == own[k + 1..] && own[k..][..1] == [own[k]];
    assert Ids([own[k]]) == {id};
    DistinctConcat(own[..k], own[k + 1..]);
    IdsConcat(own[..k], own[k + 1..]);
    var own' := own[..k] + own[k + 1..];
    assert forall x :: x in own' ==> x in own && x.id in Ids(own');
    assert forall x :: x in other ==> x.id in Ids(other);
  }

  lemma AfterSweepLive(b: Book, s: Side, otype: OrderType, limit: int, qty: int)
    requires Sound(b) && LiveExact(b)
    ensures LiveExact(AfterSweep(b, s, SweepOf(b, s, otype, limit, qty)))
  {
    hide Sweep, Indexed, InRank, Consumed;
    var opp, market := b.Of(Opposite(s)), otype.Market?;
    var sw := SweepOf(b, s, otype, limit, qty);
    SidesIndexed(b, Opposite(s));
    assert InRank(opp, Opposite(s));
    var n := SweepBook(opp, s, market, limit, Band(opp, market, limit), qty);
    if |sw.trades| == n + 1 {
      var q := opp[n].qty - sw.trades[n].qty;
      assert sw.book == [opp[n].(qty := q)] + opp[n + 1..];
    }
    SweptLive(b.live, opp, Opposite(s), b.Of(s), n, sw.book);
    SidesIndexed(AfterSweep(b, s, sw), Opposite(s));
  }

  /** Either side may be named first. */
  lemma SidesIndexed(b: Book, s: Side)
    ensures LiveExact(b) <==> Indexed(b.live, b.Of(s), s, b.Of(Opposite(s)))
  {
    hide DistinctIds, LiveAt;
  }

  lemma RestKeepsLive(b: Book, id: string, s: Side, price: int, qty: int)
    requires LiveExact(b) && id !in b.live
    ensures LiveExact(Rest(b, id, s, price, qty))
  {
    RestLive(b.live, b.Of(s), s, b.Of(Opposite(s)), Resting(id, price, qty));
  }

  lemma SubmitKeepsLive(b: Book, id: string, s: Side, otype: OrderType, limit: int, qty: int)
    requires Sound(b) && LiveExact(b) && id !in b.live
    ensures LiveExact(Submit(b, id, s, otype, limit, qty))
  {
    if !Killed(b, s, otype, limit, qty) {
      var sw := SweepOf(b, s, otype, limit, qty);
      var swept := AfterSweep(b, s, sw);
      assert LiveExact(swept) by {
        AfterSweepLive(b, s, otype, limit, qty);
      }
      if 0 < sw.left && Rests(otype) {
        RestKeepsLive(swept, id, s, limit, sw.left);
        assert swept.Of(s) == b.Of(s);
      }
    }
  }

  lemma CancelKeepsLive(b: Book, id: string)
    requires LiveExact(b)
    ensures LiveExact(CancelOrder(b, id))
  {
    if id in b.live {
      var s := b.live[id].side;
      RemoveLive(b.live, b.Of(s), s, b.Of(Opposite(s)), id);
    }
  }

  lemma SubmitAddsOneId(b: Book, id: string, s: Side, otype: OrderType, limit: int, qty: int)
    ensures Submit(b, id, s, otype, limit, qty).live.Keys <= b.live.Keys + {id}
  {
  }

  lemma CancelDropsOneId(b: Book, id: string)
    ensures CancelOrder(b, id).live.Keys == b.live.Keys - {id}
  {
  }

  // ----- the makers of one order -----

  lemma PositiveTrades(b: Book, id: string, s: Side, otype: OrderType, limit: int, qty: int)
    requires Sound(b)
    ensures var ts := SubmitTrades(b, id, s, otype, limit, qty); forall i :: 0 <= i < |ts| ==> 0 < ts[i].qty
  {
    hide Sweep;
    var opp := b.Of(Opposite(s));
    var ts := SubmitTrades(b, id, s, otype, limit, qty);
    forall i | 0 <= i < |ts| ensures 0 < ts[i].qty {
      SweepTrades(opp, s, otype.Market?, limit, Band(opp, otype.Market?, limit), qty, i);
    }
  }

  lemma {:induction false} DistinctPositions(rs: seq<Resting>, i: nat, j: nat)
    requires DistinctIds(rs) && i < j < |rs|
    ensures rs[i].id != rs[j].id
  {
    if i == 0 {
      assert rs[j] == rs[1..][j - 1] && rs[j] in rs[1..];
    } else {
      DistinctPositions(rs[1..], i - 1, j - 1);
    }
  }

  /** Each trade of an order is with a different maker. */
  lemma MakersDoNotRepeat(b: Book, id: string, s: Side, otype: OrderType, limit: int, qty: int, i: nat, j: nat)
    requires Sound(b) && LiveExact(b) && i < j < |SubmitTrades(b, id, s, otype, limit, qty)|
    ensures SubmitTrades(b, id, s, otype, limit, qty)[i].maker != SubmitTrades(b, id, s, otype, limit, qty)[j].maker
  {
    hide Sweep;
    var opp := b.Of(Opposite(s));
    var band := Band(opp, otype.Market?, limit);
    SweepTrades(opp, s, otype.Market?, limit, band, qty, i);
    SweepTrades(opp, s, otype.Market?, limit, band, qty, j);
    DistinctPositions(opp, i, j);
  }
}
