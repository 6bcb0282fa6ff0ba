/**
 When the order in which a map of books is walked decides anything. A replayed cancel stops at the first book that has
 the order; these are the event lists on which it matters which book that is.
 */
module MapWalks {
  import opened MarketTypes
  import opened RankedBook
  import opened BookLaws
  import opened Differential
  import opened ReplaySpec
  import opened ReplayLaws
  import opened VerdictLaws
  import opened ReplayChoices

  // ----- one event -----

  /** The event cancels an order that is live in two books. */
  ghost predicate Splits(st: State, ev: Event) {
    && Cancels(st.tally, ev)
    && exists t, u :: t != u && LiveIn(st.books, t, st.tally.serverToBot[ev.cancelTargetId])
                      && LiveIn(st.books, u, st.tally.serverToBot[ev.cancelTargetId])
  }

  /** Every walk over the books takes this event to the same state. */
  ghost predicate Forced(st: State, ev: Event) {
    forall p, q :: PickOk(st, ev, p) && PickOk(st, ev, q) ==> Step(st, ev, At(p)) == Step(st, ev, At(q))
  }

  /** Asking every book is asking one of the books a walk may stop at, unless two of them have the order. */
  lemma EverywhereIsAPick(st: State, ev: Event, pick: string)
    requires PickOk(st, ev, pick) && !Splits(st, ev)
    ensures Step(st, ev, At(pick)) == Step(st, ev, Everywhere)
  {
    hide Submit, SubmitTrades, CancelIn;
    if Cancels(st.tally, ev) {
      var bot := st.tally.serverToBot[ev.cancelTargetId];
      OnlyLiveIn(st.books, bot, pick);
    }
  }

  lemma OnlyLiveIn(books: map<string, Book>, bot: string, pick: string)
    requires (exists t :: LiveIn(books, t, bot)) ==> LiveIn(books, pick, bot)
    requires forall t, u :: LiveIn(books, t, bot) && LiveIn(books, u, bot) ==> t == u
    ensures CancelIn(books, bot, At(pick)) == CancelIn(books, bot, Everywhere)
  {
    forall t | t in books && t != pick ensures CancelOrder(books[t], bot) == books[t] {
      assert LiveIn(books, t, bot) ==> LiveIn(books, pick, bot);
    }
  }

  lemma CancelStepBooks(st: State, ev: Event, rule: CancelRule)
    requires Cancels(st.tally, ev)
    ensures Step(st, ev, rule).books == CancelIn(st.books, st.tally.serverToBot[ev.cancelTargetId], rule)
  {
    hide CancelIn, NoteAttempt;
  }

  lemma TwoWaysDiffer(st: State, ev: Event, t: string, u: string)
    requires Cancels(st.tally, ev) && t != u
    requires LiveIn(st.books, t, st.tally.serverToBot[ev.cancelTargetId])
    requires LiveIn(st.books, u, st.tally.serverToBot[ev.cancelTargetId])
    ensures PickOk(st, ev, t) && PickOk(st, ev, u) && Step(st, ev, At(t)) != Step(st, ev, At(u))
  {
    hide CancelIn, Step, LiveIn;
    var bot := st.tally.serverToBot[ev.cancelTargetId];
    CancelledAt(st.books, bot, t);
    CancelledAt(st.books, bot, u);
    CancelStepBooks(st, ev, At(t));
    CancelStepBooks(st, ev, At(u));
    assert LiveIn(CancelIn(st.books, bot, At(u)), t, bot);
  }

  lemma CancelledAt(books: map<string, Book>, bot: string, t: string)
    requires LiveIn(books, t, bot)
    ensures !LiveIn(CancelIn(books, bot, At(t)), t, bot)
    ensures forall u :: u != t && LiveIn(books, u, bot) ==> LiveIn(CancelIn(books, bot, At(t)), u, bot)
  {
    hide CancelOrder;
    CancelDropsOneId(books[t], bot);
  }

  /** The walk decides what an event does exactly when the event cancels an order that is live in two books. */
  lemma ForcedIff(st: State, ev: Event)
    ensures Forced(st, ev) <==> !Splits(st, ev)
  {
    hide Step, PickOk, LiveIn;
    if Splits(st, ev) {
      var t, u :| t != u && LiveIn(st.books, t, st.tally.serverToBot[ev.cancelTargetId])
                  && LiveIn(st.books, u, st.tally.serverToBot[ev.cancelTargetId]);
      TwoWaysDiffer(st, ev, t, u);
    } else {
      forall p, q | PickOk(st, ev, p) && PickOk(st, ev, q) ensures Step(st, ev, At(p)) == Step(st, ev, At(q)) {
        EverywhereIsAPick(st, ev, p);
        EverywhereIsAPick(st, ev, q);
      }
    }
  }

  // ----- a whole list -----

  /** All walks agree on the state after `es`. */
  ghost predicate OneState(es: seq<Event>) {
    forall ps, qs :: Walk(es, ps) && Walk(es, qs) ==> FoldPicks(es, ps) == FoldPicks(es, qs)
  }

  ghost predicate Walk(es: seq<Event>, picks: seq<string>) {
    |picks| == |es| && PicksOk(es, picks)
  }

  /** No event of the list cancels an order that is then live in two books. */
  ghost predicate NeverSplits(es: seq<Event>) {
    es == [] || (NeverSplits(es[..|es| - 1]) && !Splits(Fold(es[..|es| - 1]), es[|es| - 1]))
  }

  ghost predicate OneStateThroughout(es: seq<Event>) {
    OneState(es) && (es == [] || OneStateThroughout(es[..|es| - 1]))
  }

  lemma {:induction false} NeverSplitsIsFold(es: seq<Event>, picks: seq<string>)
    requires NeverSplits(es) && Walk(es, picks)
    ensures FoldPicks(es, picks) == Fold(es)
  {
    hide Step, PickOk, Splits;
    if es != [] {
      var front := es[..|es| - 1];
      NeverSplitsIsFold(front, picks[..|es| - 1]);
      EverywhereIsAPick(Fold(front), es[|es| - 1], picks[|es| - 1]);
    }
  }

  lemma OneStateForces(es: seq<Event>)
    requires es != [] && NeverSplits(es[..|es| - 1]) && OneState(es)
    ensures !Splits(Fold(es[..|es| - 1]), es[|es| - 1])
  {
    hide Step, PickOk, Splits, FoldPicks, PicksOk, OneState, Walk;
    var front, last := es[..|es| - 1], es[|es| - 1];
    var before := PicksExist(front);
    assert Walk(front, before) by { WalkIs(front, before); }
    NeverSplitsIsFold(front, before);
    forall p, q | PickOk(Fold(front), last, p) && PickOk(Fold(front), last, q)
      ensures Step(Fold(front), last, At(p)) == Step(Fold(front), last, At(q))
    {
      WalkOn(front, before, last, p);
      WalkOn(front, before, last, q);
      assert front + [last] == es;
      SameState(es, before + [p], before + [q]);
    }
    ForcedIff(Fold(front), last);
  }

  lemma WalkIs(es: seq<Event>, picks: seq<string>)
    requires |picks| == |es| && PicksOk(es, picks)
    ensures Walk(es, picks)
  {
  }

  lemma WalkOn(es: seq<Event>, picks: seq<string>, ev: Event, pick: string)
    requires Walk(es, picks) && PickOk(FoldPicks(es, picks), ev, pick)
    ensures Walk(es + [ev], picks + [pick])
    ensures FoldPicks(es + [ev], picks + [pick]) == Step(FoldPicks(es, picks), ev, At(pick))
  {
    hide Step, PickOk, FoldPicks, PicksOk;
    PicksSnoc(es, picks, ev, pick);
  }

  lemma SameState(es: seq<Event>, ps: seq<string>, qs: seq<string>)
    requires OneState(es) && Walk(es, ps) && Walk(es, qs)
    ensures FoldPicks(es, ps) == FoldPicks(es, qs)
  {
    hide Walk, FoldPicks;
  }

  /**
   Walks agree on the state after every prefix of the list exactly when none of its events cancels an order that is
   live in two books.
   */
  lemma {:induction false} OneStateIffNeverSplits(es: seq<Event>)
    ensures OneStateThroughout(es) <==> NeverSplits(es)
  {
    hide Splits, OneState;
    if es == [] {
      NothingIsOneState();
    } else {
      var front := es[..|es| - 1];
      OneStateIffNeverSplits(front);
      if NeverSplits(es) {
        OneStateIfNeverSplits(es);
      }
      if OneStateThroughout(es) {
        OneStateForces(es);
      }
    }
  }

  lemma NothingIsOneState()
    ensures OneState([])
  {
  }

  lemma OneStateIfNeverSplits(es: seq<Event>)
    requires NeverSplits(es)
    ensures OneState(es)
  {
    hide NeverSplits, PicksOk, FoldPicks, Fold;
    forall ps, qs | Walk(es, ps) && Walk(es, qs) ensures FoldPicks(es, ps) == FoldPicks(es, qs) {
      NeverSplitsIsFold(es, ps);
      NeverSplitsIsFold(es, qs);
    }
  }

  /** Without a split exactly one verdict is possible, the one of asking every book. */
  lemma OneVerdictWithoutSplits(es: seq<Event>, v: Verdict)
    requires NeverSplits(SortBySeq(es))
    ensures MayFinalize(es, v) <==> v == Finalize(es)
  {
    hide SortBySeq, FoldPicks, Fold, PicksOk, VerdictOf, NeverSplits;
    if HasEnd(es) {
      var some := PicksExist(SortBySeq(es));
      NeverSplitsIsFold(SortBySeq(es), some);
      assert Reaches(SortBySeq(es), some, Finalize(es));
      if picks :| Reaches(SortBySeq(es), picks, v) {
        NeverSplitsIsFold(SortBySeq(es), picks);
      }
    }
  }

  lemma HomeNeverSplits(st: State, ev: Event)
    requires HomeOnly(st)
    ensures !Splits(st, ev)
  {
  }

  /** No event splits the walks when every order id is accepted on one ticker only, however often. */
  lemma {:induction false} OneTickerNeverSplits(es: seq<Event>)
    requires OneTickerEach(es)
    ensures NeverSplits(es)
  {
    hide Splits, HomeOnly, Fold;
    if es != [] {
      var front := es[..|es| - 1];
      assert forall e :: e in front ==> e in es;
      OneTickerNeverSplits(front);
      FoldKeepsHome(front);
      HomeNeverSplits(Fold(front), es[|es| - 1]);
    }
  }

  /** So then the walks do not matter ... */
  lemma PicksDoNotMatter(es: seq<Event>, picks: seq<string>)
    requires OneTickerEach(es) && |picks| == |es| && PicksOk(es, picks)
    ensures FoldPicks(es, picks) == Fold(es)
  {
    hide NeverSplits, Fold, FoldPicks, PicksOk;
    OneTickerNeverSplits(es);
    NeverSplitsIsFold(es, picks);
  }

  lemma SortedOneTicker(es: seq<Event>)
    requires OneTickerEach(es)
    ensures NeverSplits(SortBySeq(es))
  {
    hide SortBySeq, NeverSplits;
    SortAscends(es);
    OneTickerNeverSplits(SortBySeq(es));
  }

  /** ... and there is exactly one verdict. */
  lemma OneVerdictPossible(es: seq<Event>, v: Verdict)
    requires OneTickerEach(es)
    ensures MayFinalize(es, v) <==> v == Finalize(es)
  {
    hide SortBySeq, NeverSplits, MayFinalize, Finalize;
    SortedOneTicker(es);
    OneVerdictWithoutSplits(es, v);
  }

  // ----- an instance: two verdicts for one event list -----

  function BuyOf(ticker: string, serverId: nat, seqNo: nat): Event {
    Event("s", 0, "a", Intent(Buy), 10, 1, ticker, Limit, seqNo, serverId, 0, 0, 0, "", false, Ok)
  }

  const CANCEL_OF_A := Event("s", 0, "1", Cancel, 0, 0, "", OtherType, 3, 1, 0, 1, 0, "", false, Ok)

  const SELL_OF_B := Event("s", 0, "b", Intent(Sell), 10, 1, "T", Limit, 4, 3, 0, 0, 0, "", false, Ok)

  const MARKER := Event("s", 0, "", OtherAction, 0, 0, "", OtherType, 5, 0, 0, 0, 0, "", true, Ok)

  /** The same order id accepted on two tickers, one cancel, and an order that meets the one that is left. */
  const TWICE_A := [BuyOf("T", 1, 1), BuyOf("U", 2, 2), CANCEL_OF_A, SELL_OF_B, MARKER]

  const BID_A := Book([Resting("a", 10, 1)], [], map["a" := Ref(Buy, 10)])

  const ASK_B := Book([], [Resting("b", 10, 1)], map["b" := Ref(Sell, 10)])

  lemma BidRests()
    ensures Submit(EMPTY, "a", Buy, Limit, 10, 1) == BID_A && SubmitTrades(EMPTY, "a", Buy, Limit, 10, 1) == []
  {
    assert EMPTY.live - {} == map[];
  }

  lemma AskRestsOrTrades()
    ensures Submit(EMPTY, "b", Sell, Limit, 10, 1) == ASK_B && SubmitTrades(EMPTY, "b", Sell, Limit, 10, 1) == []
    ensures SubmitTrades(BID_A, "b", Sell, Limit, 10, 1) == [Trade("a", 1, 10, 10, false)]
  {
    assert EMPTY.live - {} == map[];
    assert [Resting("a", 10, 1)][1..] == [];
    assert Sweep([], Sell, false, 10, 10, 0).trades == [];
    assert [Trade("a", 1, 10, 10, false)] + [] == [Trade("a", 1, 10, 10, false)];
  }

  lemma BidIsCancelled()
    ensures CancelOrder(BID_A, "a") == EMPTY
  {
    assert [Resting("a", 10, 1)][1..] == [];
    assert BID_A.live - {"a"} == map[];
  }

  function TwoBuys(): Tally {
    Tally(map[1 := "a", 2 := "a"], {1, 2}, 2, map["a" := []], map[], ["a", "a"], map["a" := "U"], map["a" := 2], map[], 2, 0)
  }

  /** After both buys the order is live in two books. */
  lemma AfterBuys()
    ensures FoldPicks([BuyOf("T", 1, 1), BuyOf("U", 2, 2)], ["", ""])
         == State(map["T" := BID_A, "U" := BID_A], TwoBuys())
    ensures PicksOk([BuyOf("T", 1, 1), BuyOf("U", 2, 2)], ["", ""])
  {
    hide Submit, SubmitTrades;
    BidRests();
    var e, f := BuyOf("T", 1, 1), BuyOf("U", 2, 2);
    PicksSnoc([], [], e, "");
    PicksSnoc([e], [""], f, "");
    assert [] + [e] == [e] && [""] + [""] == ["", ""] && [e] + [f] == [e, f];
  }

  /** The cancel takes the order out of the book the walk meets first. */
  function OneLeft(pick: string): map<string, Book> {
    if pick == "T" then map["T" := EMPTY, "U" := BID_A] else map["T" := BID_A, "U" := EMPTY]
  }

  function ThreeSeen(): Tally {
    TwoBuys().(seen := {1, 2, 3}, maxSeq := 3, attempts := 3)
  }

  lemma AfterCancel(pick: string)
    requires pick == "T" || pick == "U"
    ensures FoldPicks([BuyOf("T", 1, 1), BuyOf("U", 2, 2), CANCEL_OF_A], ["", "", pick]) == State(OneLeft(pick), ThreeSeen())
    ensures PicksOk([BuyOf("T", 1, 1), BuyOf("U", 2, 2), CANCEL_OF_A], ["", "", pick])
  {
    hide CancelOrder, FoldPicks, PicksOk;
    AfterBuys();
    BidIsCancelled();
    var two := [BuyOf("T", 1, 1), BuyOf("U", 2, 2)];
    PicksSnoc(two, ["", ""], CANCEL_OF_A, pick);
    assert two + [CANCEL_OF_A] == [BuyOf("T", 1, 1), BuyOf("U", 2, 2), CANCEL_OF_A];
    assert ["", ""] + [pick] == ["", "", pick];
  }

  /** The books and the tally at the end, `b` having made these trades. */
  function TallyWith(trades: seq<Trade>): Tally {
    Tally(map[1 := "a", 2 := "a", 3 := "b"], {1, 2, 3, 4, 5}, 5, map["a" := [], "b" := trades], map[], ["a", "a", "b"],
          map["a" := "U", "b" := "T"], map["a" := 2, "b" := 4], map[], 4, 0)
  }

  lemma SellIs(books: map<string, Book>, trades: seq<Trade>)
    requires trades == SubmitTrades(BookFor(books, "T"), "b", Sell, Limit, 10, 1)
    ensures Step(State(books, ThreeSeen()), SELL_OF_B, At("")).tally == TallyWith(trades).(seen := {1, 2, 3, 4}, maxSeq := 4)
  {
    hide Submit, SubmitTrades;
  }

  lemma MarkerIs(st: State, trades: seq<Trade>)
    requires st.tally == TallyWith(trades).(seen := {1, 2, 3, 4}, maxSeq := 4)
    ensures Step(st, MARKER, At("")).tally == TallyWith(trades)
  {
  }

  lemma NoCancelNoChoice(st: State, ev: Event, pick: string)
    requires !ev.action.Cancel?
    ensures PickOk(st, ev, pick)
  {
  }

  lemma AfterAll(pick: string, trades: seq<Trade>)
    requires pick == "T" || pick == "U"
    requires trades == SubmitTrades(BookFor(OneLeft(pick), "T"), "b", Sell, Limit, 10, 1)
    ensures FoldPicks(TWICE_A, ["", "", pick, "", ""]).tally == TallyWith(trades)
    ensures PicksOk(TWICE_A, ["", "", pick, "", ""])
  {
    hide Step, FoldPicks, PicksOk, PickOk, Submit, SubmitTrades, OneLeft;
    AfterCancel(pick);
    var three := [BuyOf("T", 1, 1), BuyOf("U", 2, 2), CANCEL_OF_A];
    var st := State(OneLeft(pick), ThreeSeen());
    SellIs(OneLeft(pick), trades);
    NoCancelNoChoice(st, SELL_OF_B, "");
    PicksSnoc(three, ["", "", pick], SELL_OF_B, "");
    var st' := Step(st, SELL_OF_B, At(""));
    MarkerIs(st', trades);
    NoCancelNoChoice(st', MARKER, "");
    PicksSnoc(three + [SELL_OF_B], ["", "", pick] + [""], MARKER, "");
    assert three + [SELL_OF_B] + [MARKER] == TWICE_A;
    assert ["", "", pick] + [""] + [""] == ["", "", pick, "", ""];
  }

  lemma NothingAgrees()
    ensures Diff([], []) == Correct
  {
  }

  lemma MissedTradeDisagrees()
    ensures Diff([Trade("a", 1, 10, 10, false)], []) == Incorrect
  {
    var t := Trade("a", 1, 10, 10, false);
    assert t in [t] && "a" in Makers([t]);
    assert VolumeAgainst([t][1..], "a") == 0;
  }

  lemma NoTradeIsCorrect()
    ensures VerdictOf(TallyWith([])) == Correct
  {
    hide Diff;
    NothingAgrees();
    CorrectIff(TallyWith([]));
    FiveSeen();
  }

  lemma FiveSeen()
    ensures forall t :: Gap(TallyWith(t)) == 0
  {
  }

  lemma MissedTradeIsIncorrect()
    ensures VerdictOf(TallyWith([Trade("a", 1, 10, 10, false)])) == Incorrect
  {
    hide Diff, VerdictOf;
    var t := TallyWith([Trade("a", 1, 10, 10, false)]);
    NothingAgrees();
    MissedTradeDisagrees();
    FiveSeen();
    assert DiffIs(t, 0, Correct) && DiffIs(t, 1, Correct) && DiffIs(t, 2, Incorrect);
    assert CleanDivergence(t, 2);
    IncorrectIff(t);
  }

  lemma AscendingIsProcessed(es: seq<Event>, v: Verdict)
    requires StrictlyAscending(es) && PositiveSeqs(es) && Consistent(es) && HasEnd(es)
    ensures MayFinalize(es, v) <==> exists ps :: Reaches(es, ps, v)
  {
    hide SortBySeq, Reaches, Dedup, HasEnd;
    SortAscends(es);
    DedupStrict(SortBySeq(es));
    DedupElements(SortBySeq(es));
    StrictIsUnique(Dedup(SortBySeq(es)), es);
    ReachesDedup(SortBySeq(es), v);
    var sorted := SortBySeq(es);
    assert Dedup(sorted) == es;
    assert (exists picks :: Reaches(sorted, picks, v)) <==> (exists ps :: Reaches(es, ps, v));
  }

  /** Five events on which the verdict hangs on the order in which the map of books is walked. */
  lemma TwoVerdicts()
    ensures MayFinalize(TWICE_A, Correct) && MayFinalize(TWICE_A, Incorrect)
  {
    hide FoldPicks, PicksOk, VerdictOf, SubmitTrades, MayFinalize, TallyWith;
    AskRestsOrTrades();
    AfterAll("T", []);
    AfterAll("U", [Trade("a", 1, 10, 10, false)]);
    NoTradeIsCorrect();
    MissedTradeIsIncorrect();
    assert Reaches(TWICE_A, ["", "", "T", "", ""], Correct);
    assert Reaches(TWICE_A, ["", "", "U", "", ""], Incorrect);
    TwiceIsAscending();
    AscendingIsProcessed(TWICE_A, Correct);
    AscendingIsProcessed(TWICE_A, Incorrect);
  }

  lemma TwiceIsAscending()
    ensures StrictlyAscending(TWICE_A) && PositiveSeqs(TWICE_A) && Consistent(TWICE_A) && HasEnd(TWICE_A)
  {
    assert TWICE_A[4] in TWICE_A;
  }
}
