/** Comparing what the contestant reported for one order with what the golden model traded for it. */
module Differential {
  import opened MarketTypes
  import opened RankedBook
  import opened BookLaws

  /** A reported fill; `makerKnown` says whether the maker's server id belongs to a recorded order. */
  datatype ObservedFill = ObservedFill(makerBot: string, makerKnown: bool, makerId: nat, qty: int, price: int)

  // ----- what agreement means -----

  function Makers(exp: seq<Trade>): set<string> {
    set t | t in exp :: t.maker
  }

  function FilledWith(obs: seq<ObservedFill>, maker: string): int {
    if obs == [] then 0 else (if obs[0].makerBot == maker then obs[0].qty else 0) + FilledWith(obs[1..], maker)
  }

  function FilledTotal(obs: seq<ObservedFill>): int {
    if obs == [] then 0 else obs[0].qty + FilledTotal(obs[1..])
  }

  function FirstWith(exp: seq<Trade>, maker: string): (t: Trade)
    requires maker in Makers(exp)
    ensures t in exp && t.maker == maker
  {
    if exp[0].maker == maker then exp[0] else FirstWith(exp[1..], maker)
  }

  /** Inside the inclusive range between the maker's price and the aggressor's end of the band. */
  predicate InBand(price: int, t: Trade) {
    (t.makerPrice <= price <= t.aggLimit) || (t.aggLimit <= price <= t.makerPrice)
  }

  /**
   The reported fills name exactly the makers price-time priority selects, each for its full share however the
   fills are split or ordered, at prices inside the band.
   */
  ghost predicate Agrees(exp: seq<Trade>, obs: seq<ObservedFill>) {
    SharesAgree(exp, obs) && MakersAgree(exp, obs) && PricesAgree(exp, obs)
  }

  ghost predicate SharesAgree(exp: seq<Trade>, obs: seq<ObservedFill>) {
    forall m :: m in Makers(exp) ==> FilledWith(obs, m) == VolumeAgainst(exp, m)
  }

  ghost predicate MakersAgree(exp: seq<Trade>, obs: seq<ObservedFill>) {
    forall f :: f in obs ==> f.makerBot in Makers(exp)
  }

  ghost predicate PricesAgree(exp: seq<Trade>, obs: seq<ObservedFill>) {
    forall f :: f in obs && f.makerBot in Makers(exp) ==> InBand(f.price, FirstWith(exp, f.makerBot))
  }

  ghost predicate AllKnown(obs: seq<ObservedFill>) {
    forall f :: f in obs ==> f.makerKnown
  }

  ghost function Diff(exp: seq<Trade>, obs: seq<ObservedFill>): Verdict {
    if !AllKnown(obs) then Unverified else if Agrees(exp, obs) then Correct else Incorrect
  }

  /** A fill on the far side of both the maker's price and the aggressor's end of the band is a divergence. */
  lemma OffSpanDiverges(exp: seq<Trade>, obs: seq<ObservedFill>, f: ObservedFill)
    requires AllKnown(obs) && f in obs && f.makerBot in Makers(exp)
    requires var t := FirstWith(exp, f.makerBot);
      (f.price < t.makerPrice && f.price < t.aggLimit) || (f.price > t.makerPrice && f.price > t.aggLimit)
    ensures Diff(exp, obs) == Incorrect
  {
    hide SharesAgree, MakersAgree, Makers, FirstWith;
  }

  /** And when makers and shares are right, there is no other divergence. */
  lemma PriceDecides(exp: seq<Trade>, obs: seq<ObservedFill>)
    requires AllKnown(obs) && SharesAgree(exp, obs) && MakersAgree(exp, obs)
    ensures Diff(exp, obs) == Incorrect <==>
      exists f :: f in obs &&
        var t := FirstWith(exp, f.makerBot);
        (f.price < t.makerPrice && f.price < t.aggLimit) || (f.price > t.makerPrice && f.price > t.aggLimit)
  {
    hide SharesAgree, Makers, FirstWith, AllKnown;
  }

  // ----- agreement implies equal totals -----

  function TradesOffMaker(exp: seq<Trade>, m: string): seq<Trade> {
    if exp == [] then []
    else if exp[0].maker == m then TradesOffMaker(exp[1..], m)
    else [exp[0]] + TradesOffMaker(exp[1..], m)
  }

  function FillsOffMaker(obs: seq<ObservedFill>, m: string): seq<ObservedFill> {
    if obs == [] then []
    else if obs[0].makerBot == m then FillsOffMaker(obs[1..], m)
    else [obs[0]] + FillsOffMaker(obs[1..], m)
  }

  lemma {:induction false} TradesOff(exp: seq<Trade>, m: string, x: string)
    ensures var off := TradesOffMaker(exp, m);
      && |off| <= |exp| && (exp != [] && exp[0].maker == m ==> |off| < |exp|)
      && Volume(exp) == Volume(off) + VolumeAgainst(exp, m)
      && VolumeAgainst(off, x) == (if x == m then 0 else VolumeAgainst(exp, x))
      && (x in Makers(off) <==> x != m && x in Makers(exp))
  {
    if exp != [] {
      TradesOff(exp[1..], m, x);
      assert exp == [exp[0]] + exp[1..];
      assert x in Makers(exp) <==> x == exp[0].maker || x in Makers(exp[1..]) by {
        MakersCons(exp[0], exp[1..]);
      }
      if exp[0].maker != m {
        var off := TradesOffMaker(exp, m);
        assert off[1..] == TradesOffMaker(exp[1..], m);
        MakersCons(exp[0], off[1..]);
      }
    }
  }

  lemma MakersCons(t: Trade, ts: seq<Trade>)
    ensures Makers([t] + ts) == {t.maker} + Makers(ts)
  {
    assert forall u :: u in [t] + ts <==> u == t || u in ts;
  }

  lemma {:induction false} FillsOff(obs: seq<ObservedFill>, m: string, x: string)
    ensures var off := FillsOffMaker(obs, m);
      && FilledTotal(obs) == FilledTotal(off) + FilledWith(obs, m)
      && FilledWith(off, x) == (if x == m then 0 else FilledWith(obs, x))
      && (forall f :: f in off ==> f in obs && f.makerBot != m)
  {
    if obs != [] {
      FillsOff(obs[1..], m, x);
      if obs[0].makerBot != m {
        var off := FillsOffMaker(obs, m);
        assert off[1..] == FillsOffMaker(obs[1..], m);
      }
    }
  }

  /** Matching every maker's share matches the total, so the total is only a quicker way to find a divergence. */
  lemma {:induction false} SharesGiveTotal(exp: seq<Trade>, obs: seq<ObservedFill>)
    requires SharesAgree(exp, obs) && MakersAgree(exp, obs)
    ensures FilledTotal(obs) == Volume(exp)
    decreases |exp|
  {
    if exp == [] {
      assert obs != [] ==> obs[0] in obs;
    } else {
      var m := exp[0].maker;
      assert exp[0] in exp;
      var exp', obs' := TradesOffMaker(exp, m), FillsOffMaker(obs, m);
      TradesOff(exp, m, m);
      FillsOff(obs, m, m);
      forall x | x in Makers(exp') ensures FilledWith(obs', x) == VolumeAgainst(exp', x) {
        TradesOff(exp, m, x);
        FillsOff(obs, m, x);
      }
      forall f | f in obs' ensures f.makerBot in Makers(exp') {
        TradesOff(exp, m, f.makerBot);
      }
      SharesGiveTotal(exp', obs');
    }
  }

  // ----- the comparison itself -----

  datatype Entry = Entry(qty: int, makerPrice: int, aggLimit: int, aggMarket: bool)

  function PriceBand(makerPrice: int, aggLimit: int): (int, int) {
    if makerPrice <= aggLimit then (makerPrice, aggLimit) else (aggLimit, makerPrice)
  }

  ghost predicate Tallied(exp: seq<Trade>, n: nat, expMap: map<string, Entry>)
    requires n <= |exp|
  {
    && expMap.Keys == Makers(exp[..n])
    && forall m :: m in expMap ==> (
         && expMap[m].qty == VolumeAgainst(exp[..n], m)
         && (var t := FirstWith(exp[..n], m); expMap[m].makerPrice == t.makerPrice && expMap[m].aggLimit == t.aggLimit))
  }

  lemma FirstWithGrows(a: seq<Trade>, t: Trade, m: string)
    ensures Makers(a + [t]) == Makers(a) + {t.maker}
    ensures m in Makers(a) ==> FirstWith(a + [t], m) == FirstWith(a, m)
    ensures m !in Makers(a) && m == t.maker ==> FirstWith(a + [t], m) == t
    ensures VolumeAgainst(a + [t], m) == VolumeAgainst(a, m) + (if t.maker == m then t.qty else 0)
  {
    hide FirstWith, VolumeAgainst, Makers;
    MakersSnoc(a, t);
    VolumeSnoc(a, t, m);
    FirstWithSnoc(a, t, m);
  }

  lemma MakersSnoc(a: seq<Trade>, t: Trade)
    ensures Makers(a + [t]) == Makers(a) + {t.maker}
  {
    assert forall u :: u in a + [t] <==> u in a || u == t;
  }

  lemma VolumeSnoc(a: seq<Trade>, t: Trade, m: string)
    ensures VolumeAgainst(a + [t], m) == VolumeAgainst(a, m) + (if t.maker == m then t.qty else 0)
  {
    AgainstConcat(a, [t], m);
    assert VolumeAgainst([t][1..], m) == 0;
  }

  lemma {:induction false} FirstWithSnoc(a: seq<Trade>, t: Trade, m: string)
    ensures Makers(a + [t]) == Makers(a) + {t.maker}
    ensures m in Makers(a) ==> FirstWith(a + [t], m) == FirstWith(a, m)
    ensures m !in Makers(a) && m == t.maker ==> FirstWith(a + [t], m) == t
  {
    hide Makers;
    MakersSnoc(a, t);
    if a == [] {
      assert a + [t] == [t];
      NoMakers();
    } else {
      assert (a + [t])[1..] == a[1..] + [t];
      MakersCons(a[0], a[1..]);
      assert [a[0]] + a[1..] == a;
      FirstWithSnoc(a[1..], t, m);
    }
  }

  lemma NoMakers()
    ensures Makers([]) == {}
  {
  }

  lemma {:induction false} FilledSnoc(a: seq<ObservedFill>, f: ObservedFill, m: string)
    ensures FilledWith(a + [f], m) == FilledWith(a, m) + (if f.makerBot == m then f.qty else 0)
    ensures FilledTotal(a + [f]) == FilledTotal(a) + f.qty
  {
    if a == [] {
      assert a + [f] == [f];
    } else {
      assert (a + [f])[1..] == a[1..] + [f];
      FilledSnoc(a[1..], f, m);
    }
  }

  function AddTrade(expMap: map<string, Entry>, t: Trade): map<string, Entry> {
    var e := if t.maker in expMap then expMap[t.maker] else Entry(0, t.makerPrice, t.aggLimit, t.aggMarket);
    expMap[t.maker := e.(qty := e.qty + t.qty)]
  }

  /** The maker-keyed expectation, built trade by trade as the source does. */
  method TallyExpected(exp: seq<Trade>) returns (expMap: map<string, Entry>, expTotal: int)
    ensures expTotal == Volume(exp)
    ensures Tallied(exp, |exp|, expMap)
  {
    expMap, expTotal := map[], 0;
    for i := 0 to |exp|
      invariant expTotal == Volume(exp[..i])
      invariant Tallied(exp, i, expMap)
    {
      TallyStep(exp, i, expMap);
      expMap := AddTrade(expMap, exp[i]);
      expTotal := expTotal + exp[i].qty;
    }
    assert exp[..|exp|] == exp;
  }

  lemma TallyStep(exp: seq<Trade>, i: nat, before: map<string, Entry>)
    requires i < |exp| && Tallied(exp, i, before)
    ensures Tallied(exp, i + 1, AddTrade(before, exp[i]))
    ensures Volume(exp[..i + 1]) == Volume(exp[..i]) + exp[i].qty
  {
    var t := exp[i];
    var after := AddTrade(before, t);
    assert exp[..i + 1] == exp[..i] + [t];
    VolumeConcat(exp[..i], [t]);
    assert Volume([t][1..]) == 0;
    FirstWithGrows(exp[..i], t, t.maker);
    NotMaker(exp[..i], t.maker);
    forall m | m in after
      ensures m in Makers(exp[..i + 1]) && after[m].qty == VolumeAgainst(exp[..i + 1], m)
      ensures after[m].makerPrice == FirstWith(exp[..i + 1], m).makerPrice && after[m].aggLimit == FirstWith(exp[..i + 1], m).aggLimit
    {
      FirstWithGrows(exp[..i], t, m);
    }
  }

  lemma {:induction false} NotMaker(exp: seq<Trade>, m: string)
    ensures m !in Makers(exp) ==> VolumeAgainst(exp, m) == 0
  {
    if exp != [] {
      MakersCons(exp[0], exp[1..]);
      assert [exp[0]] + exp[1..] == exp;
      NotMaker(exp[1..], m);
    }
  }

  method TallyObserved(obs: seq<ObservedFill>) returns (obsMap: map<string, int>, obsTotal: int)
    requires AllKnown(obs)
    ensures obsTotal == FilledTotal(obs)
    ensures forall m :: m in obsMap <==> exists f :: f in obs && f.makerBot == m
    ensures forall m :: m in obsMap ==> obsMap[m] == FilledWith(obs, m)
  {
    obsMap, obsTotal := map[], 0;
    for i := 0 to |obs|
      invariant obsTotal == FilledTotal(obs[..i])
      invariant forall m :: m in obsMap <==> exists k :: 0 <= k < i && obs[k].makerBot == m
      invariant forall m :: m in obsMap ==> obsMap[m] == FilledWith(obs[..i], m)
      invariant forall m :: m !in obsMap ==> FilledWith(obs[..i], m) == 0
    {
      var f := obs[i];
      obsTotal := obsTotal + f.qty;
      obsMap := obsMap[f.makerBot := (if f.makerBot in obsMap then obsMap[f.makerBot] else 0) + f.qty];
      assert obs[..i + 1] == obs[..i] + [f];
      forall m ensures FilledWith(obs[..i + 1], m) == FilledWith(obs[..i], m) + (if f.makerBot == m then f.qty else 0) {
        FilledSnoc(obs[..i], f, m);
      }
      FilledSnoc(obs[..i], f, f.makerBot);
    }
    assert obs[..|obs|] == obs;
  }

  /** The source's comparison: unknown makers first, then totals, shares, unexpected makers and prices. */
  method DiffAggressor(exp: seq<Trade>, obs: seq<ObservedFill>) returns (v: Verdict)
    ensures v == Diff(exp, obs)
    ensures AllKnown(obs) && v != Incorrect ==> forall f :: f in obs && f.makerBot in Makers(exp) ==>
      var t := FirstWith(exp, f.makerBot);
      (t.makerPrice <= f.price || t.aggLimit <= f.price) && (f.price <= t.makerPrice || f.price <= t.aggLimit)
  {
    for i := 0 to |obs|
      invariant forall k :: 0 <= k < i ==> obs[k].makerKnown
    {
      if !obs[i].makerKnown {
        return Unverified;
      }
    }
    var expMap, expTotal := TallyExpected(exp);
    var obsMap, obsTotal := TallyObserved(obs);
    if obsTotal != expTotal {
      TotalsDecide(exp, obs);
      return Incorrect;
    }
    var ok := CheckShares(exp, obs, expMap, obsMap);
    if !ok {
      return Incorrect;
    }
    ok := CheckMakers(exp, obs, expMap, obsMap);
    if !ok {
      return Incorrect;
    }
    ok := CheckPrices(exp, obs, expMap);
    return if ok then Correct else Incorrect;
  }

  lemma TotalsDecide(exp: seq<Trade>, obs: seq<ObservedFill>)
    ensures FilledTotal(obs) != Volume(exp) ==> !Agrees(exp, obs)
  {
    if SharesAgree(exp, obs) && MakersAgree(exp, obs) {
      SharesGiveTotal(exp, obs);
    }
  }

  /** Every expected maker was filled for exactly its share, whatever order the map is walked in. */
  method CheckShares(exp: seq<Trade>, obs: seq<ObservedFill>, expMap: map<string, Entry>, obsMap: map<string, int>)
    returns (ok: bool)
    requires Tallied(exp, |exp|, expMap)
    requires forall m :: m in obsMap <==> exists f :: f in obs && f.makerBot == m
    requires forall m :: m in obsMap ==> obsMap[m] == FilledWith(obs, m)
    ensures ok <==> SharesAgree(exp, obs)
  {
    assert exp[..|exp|] == exp;
    var makers := expMap.Keys;
    while makers != {}
      invariant makers <= expMap.Keys
      invariant forall m :: m in expMap && m !in makers ==> FilledWith(obs, m) == VolumeAgainst(exp, m)
      decreases makers
    {
      var m :| m in makers;
      Unfilled(obs, m);
      if (if m in obsMap then obsMap[m] else 0) != expMap[m].qty {
        return false;
      }
      makers := makers - {m};
    }
    return true;
  }

  lemma {:induction false} Unfilled(obs: seq<ObservedFill>, m: string)
    ensures (forall f :: f in obs ==> f.makerBot != m) ==> FilledWith(obs, m) == 0
  {
    if obs != [] {
      assert obs[0] in obs && forall f :: f in obs[1..] ==> f in obs;
      Unfilled(obs[1..], m);
    }
  }

  /** No maker was filled that price-time priority did not select. */
  method CheckMakers(exp: seq<Trade>, obs: seq<ObservedFill>, expMap: map<string, Entry>, obsMap: map<string, int>)
    returns (ok: bool)
    requires Tallied(exp, |exp|, expMap)
    requires forall m :: m in obsMap <==> exists f :: f in obs && f.makerBot == m
    ensures ok <==> MakersAgree(exp, obs)
  {
    assert exp[..|exp|] == exp;
    var makers := obsMap.Keys;
    while makers != {}
      invariant makers <= obsMap.Keys
      invariant forall m :: m in obsMap && m !in makers ==> m in expMap
      decreases makers
    {
      var m :| m in makers;
      if m !in expMap {
        return false;
      }
      makers := makers - {m};
    }
    return true;
  }

  method CheckPrices(exp: seq<Trade>, obs: seq<ObservedFill>, expMap: map<string, Entry>) returns (ok: bool)
    requires Tallied(exp, |exp|, expMap)
    ensures ok <==> PricesAgree(exp, obs)
    ensures ok <==> forall f :: f in obs && f.makerBot in Makers(exp) ==>
      var t := FirstWith(exp, f.makerBot);
      (t.makerPrice <= f.price || t.aggLimit <= f.price) && (f.price <= t.makerPrice || f.price <= t.aggLimit)
  {
    assert exp[..|exp|] == exp;
    for i := 0 to |obs|
      invariant forall k :: 0 <= k < i && obs[k].makerBot in Makers(exp) ==>
        InBand(obs[k].price, FirstWith(exp, obs[k].makerBot))
    {
      var f := obs[i];
      if f.makerBot !in expMap {
        continue;
      }
      var e := expMap[f.makerBot];
      var (lo, hi) := PriceBand(e.makerPrice, e.aggLimit);
      if f.price < lo || f.price > hi {
        assert f in obs;
        return false;
      }
    }
    return true;
  }

  // ----- makers -----

  /** Price-time priority only ever selects live orders of the book. */
  lemma MakersAreLive(b: Book, id: string, s: Side, otype: OrderType, limit: int, qty: int, m: string)
    requires Sound(b) && LiveExact(b) && m in Makers(SubmitTrades(b, id, s, otype, limit, qty))
    ensures m in b.live
  {
    var opp := b.Of(Opposite(s));
    var ts := SubmitTrades(b, id, s, otype, limit, qty);
    var t :| t in ts && t.maker == m;
    var i :| 0 <= i < |ts| && ts[i] == t;
    SweepTrades(opp, s, otype.Market?, limit, Band(opp, otype.Market?, limit), qty, i);
    assert opp[i] in opp;
  }

  lemma {:induction false} MakerHasVolume(ts: seq<Trade>, m: string)
    requires forall i :: 0 <= i < |ts| ==> 0 < ts[i].qty
    ensures 0 <= VolumeAgainst(ts, m)
    ensures m in Makers(ts) ==> 0 < VolumeAgainst(ts, m)
  {
    if ts != [] {
      MakerHasVolume(ts[1..], m);
      MakersCons(ts[0], ts[1..]);
      assert [ts[0]] + ts[1..] == ts;
    }
  }

  lemma {:induction false} FirstOfDistinct(ts: seq<Trade>, i: nat)
    requires i < |ts| && forall j, k :: 0 <= j < k < |ts| ==> ts[j].maker != ts[k].maker
    ensures ts[i].maker in Makers(ts) && FirstWith(ts, ts[i].maker) == ts[i]
  {
    assert ts[i] in ts;
    if 0 < i {
      assert ts[i] in ts[1..] && ts[1..][i - 1] == ts[i];
      FirstOfDistinct(ts[1..], i - 1);
    }
  }
}
