/** Price levels and how they denote the ranked list of `RankedBook`. */
module PriceLevels {
  import opened MarketTypes
  import opened RankedBook

  datatype RestingOrder = RestingOrder(botId: string, qty: int)

  datatype PriceLevel = PriceLevel(price: int, orders: seq<RestingOrder>)

  function Tag(price: int, os: seq<RestingOrder>): seq<Resting> {
    if os == [] then [] else [Resting(os[0].botId, price, os[0].qty)] + Tag(price, os[1..])
  }

  function Flatten(ls: seq<PriceLevel>): seq<Resting> {
    if ls == [] then [] else Tag(ls[0].price, ls[0].orders) + Flatten(ls[1..])
  }

  predicate NoneNegative(os: seq<RestingOrder>) {
    forall i :: 0 <= i < |os| ==> 0 <= os[i].qty
  }

  /** No level is empty, no quantity negative, and prices get strictly worse from level to level. */
  predicate LevelsOk(ls: seq<PriceLevel>, s: Side) {
    ls == [] || (
      && ls[0].orders != [] && NoneNegative(ls[0].orders)
      && (1 < |ls| ==> Better(s, ls[0].price, ls[1].price))
      && LevelsOk(ls[1..], s))
  }

  lemma {:induction false} TagConcat(price: int, a: seq<RestingOrder>, b: seq<RestingOrder>)
    ensures Tag(price, a + b) == Tag(price, a) + Tag(price, b)
  {
    if a == [] {
      assert a + b == b;
    } else {
      assert (a + b)[1..] == a[1..] + b;
      TagConcat(price, a[1..], b);
    }
  }

  lemma {:induction false} TagShape(price: int, os: seq<RestingOrder>)
    ensures |Tag(price, os)| == |os|
    ensures forall i :: 0 <= i < |os| ==> Tag(price, os)[i] == Resting(os[i].botId, price, os[i].qty)
  {
    if os != [] {
      TagShape(price, os[1..]);
    }
  }

  lemma {:induction false} FlattenConcat(a: seq<PriceLevel>, b: seq<PriceLevel>)
    ensures Flatten(a + b) == Flatten(a) + Flatten(b)
  {
    if a == [] {
      assert a + b == b;
    } else {
      assert (a + b)[1..] == a[1..] + b;
      FlattenConcat(a[1..], b);
    }
  }

  lemma FlattenOne(l: PriceLevel)
    ensures Flatten([l]) == Tag(l.price, l.orders)
  {
    assert Flatten([l][1..]) == [];
  }

  lemma {:induction false} TagInOrder(price: int, os: seq<RestingOrder>, rest: seq<Resting>, s: Side)
    requires NoneNegative(os) && InOrder(rest, s) && (rest != [] ==> !Better(s, rest[0].price, price))
    ensures InOrder(Tag(price, os) + rest, s)
  {
    hide InOrder, Better;
    if os == [] {
      assert Tag(price, os) + rest == rest;
    } else {
      TagInOrder(price, os[1..], rest, s);
      var r, tail := Resting(os[0].botId, price, os[0].qty), Tag(price, os[1..]) + rest;
      assert Tag(price, os) + rest == [r] + tail;
      assert os[1..] != [] ==> tail[0].price == price;
      assert os[1..] == [] ==> tail == rest;
      NotBetterThanItself(s, price);
      OrderCons(r, tail, s);
    }
  }

  lemma NotBetterThanItself(s: Side, price: int)
    ensures !Better(s, price, price)
  {
  }

  lemma OrderCons(r: Resting, tail: seq<Resting>, s: Side)
    requires 0 <= r.qty && InOrder(tail, s) && (tail != [] ==> !Better(s, tail[0].price, r.price))
    ensures InOrder([r] + tail, s)
  {
    assert ([r] + tail)[1..] == tail;
  }

  lemma {:induction false} LevelsInOrder(ls: seq<PriceLevel>, s: Side)
    requires LevelsOk(ls, s)
    ensures InOrder(Flatten(ls), s)
    ensures ls != [] ==> Flatten(ls) != [] && Flatten(ls)[0] == Resting(ls[0].orders[0].botId, ls[0].price, ls[0].orders[0].qty)
  {
    if ls != [] {
      LevelsInOrder(ls[1..], s);
      TagInOrder(ls[0].price, ls[0].orders, Flatten(ls[1..]), s);
    }
  }

  lemma {:induction false} WorstPrice(ls: seq<PriceLevel>, s: Side)
    requires LevelsOk(ls, s) && ls != []
    ensures Flatten(ls) != [] && Flatten(ls)[|Flatten(ls)| - 1].price == ls[|ls| - 1].price
  {
    if |ls| == 1 {
      FlattenOne(ls[0]);
      assert ls == [ls[0]];
      TagShape(ls[0].price, ls[0].orders);
    } else {
      WorstPrice(ls[1..], s);
    }
  }

  lemma {:induction false} LevelsOkSplit(ls: seq<PriceLevel>, s: Side, i: nat)
    requires LevelsOk(ls, s) && i <= |ls|
    ensures LevelsOk(ls[..i], s) && LevelsOk(ls[i..], s)
    ensures 0 < i < |ls| ==> Better(s, ls[i - 1].price, ls[i].price)
  {
    if 0 < i {
      LevelsOkSplit(ls[1..], s, i - 1);
      assert ls[1..][..i - 1] == ls[..i][1..];
      assert ls[1..][i - 1..] == ls[i..];
    }
  }

  lemma {:induction false} LevelsOkJoin(a: seq<PriceLevel>, b: seq<PriceLevel>, s: Side)
    requires LevelsOk(a, s) && LevelsOk(b, s)
    requires a != [] && b != [] ==> Better(s, a[|a| - 1].price, b[0].price)
    ensures LevelsOk(a + b, s)
  {
    if a == [] {
      assert a + b == b;
    } else {
      assert (a + b)[1..] == a[1..] + b;
      LevelsOkJoin(a[1..], b, s);
    }
  }

  /** Orders priced no worse than `r` keep their place in front of it. */
  lemma {:induction false} InsertBehind(a: seq<Resting>, b: seq<Resting>, s: Side, r: Resting)
    requires forall x :: x in a ==> !Better(s, r.price, x.price)
    ensures Insert(a + b, s, r) == a + Insert(b, s, r)
  {
    if a == [] {
      assert a + b == b;
    } else {
      assert (a + b)[1..] == a[1..] + b;
      assert a[0] in a;
      InsertBehind(a[1..], b, s, r);
    }
  }

  lemma {:induction false} RemoveBehind(a: seq<Resting>, b: seq<Resting>, id: string, price: int)
    requires forall x :: x in a ==> !(x.id == id && x.price == price)
    ensures RemoveFirst(a + b, id, price) == a + RemoveFirst(b, id, price)
  {
    if a == [] {
      assert a + b == b;
    } else {
      assert (a + b)[1..] == a[1..] + b;
      assert a[0] in a;
      RemoveBehind(a[1..], b, id, price);
    }
  }
}
