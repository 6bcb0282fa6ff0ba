/** The replay as the source runs it: one mutable golden book per ticker, maps filled and counters raised in loops. */
module ReplayEngine {
  import opened MarketTypes
  import opened RankedBook
  import opened Differential
  import opened GoldenBook
  import opened ReplaySpec
  import opened ReplayLaws
  import opened MapWalks

  /** The objects are pairwise different, well formed, and denote `views`. */
  ghost predicate Denotes(books: map<string, OrderBook>, views: map<string, Book>)
    reads books.Values
  {
    && books.Keys == views.Keys
    && (forall t :: t in books ==> books[t].Valid() && books[t].View() == views[t])
    && (forall t, u :: t in books && u in books && t != u ==> books[t] != books[u])
  }

  /** Ask the books, in whatever order the map yields them, until one cancels the order. */
  method CancelFirst(books: map<string, OrderBook>, bot: string, ghost views: map<string, Book>)
    returns (ghost pick: string)
    requires Denotes(books, views)
    modifies books.Values
    ensures Denotes(books, CancelIn(views, bot, At(pick)))
    ensures (exists t :: LiveIn(views, t, bot)) ==> LiveIn(views, pick, bot)
  {
    hide OrderBook.Valid, OrderBook.View;
    pick := "";
    var keys := books.Keys;
    while keys != {}
      invariant keys <= books.Keys
      invariant Denotes(books, views)
      invariant forall t :: t in books && t !in keys ==> bot !in views[t].live
      decreases keys
    {
      var t :| t in keys;
      keys := keys - {t};
      var found := books[t].CancelById(bot);
      if found {
        pick := t;
        return;
      }
    }
    assert forall t :: t in views ==> CancelOrder(views[t], bot) == views[t];
  }

  method GetBook(books: map<string, OrderBook>, ticker: string, ghost views: map<string, Book>)
    returns (books': map<string, OrderBook>, book: OrderBook)
    requires Denotes(books, views)
    ensures ticker in books' && books'[ticker] == book
    ensures Denotes(books', views[ticker := BookFor(views, ticker)])
    ensures forall t :: t in books' ==> fresh(books'[t]) || (t in books && books'[t] == books[t])
  {
    hide OrderBook.Valid, OrderBook.View;
    if ticker in books {
      book := books[ticker];
      books' := books;
    } else {
      book := new OrderBook();
      books' := books[ticker := book];
    }
  }

  /** One round of the replay loop, on an event that is not a redelivery. */
  method Handle(books: map<string, OrderBook>, tally: Tally, ev: Event, ghost views: map<string, Book>)
    returns (books': map<string, OrderBook>, tally': Tally, ghost views': map<string, Book>, ghost pick: string)
    requires Denotes(books, views)
    modifies books.Values
    ensures Denotes(books', views')
    ensures forall t :: t in books' ==> fresh(books'[t]) || (t in books && books'[t] == books[t])
    ensures State(views', tally') == Process(State(views, tally), ev, At(pick))
    ensures ev.action.Cancel? && ev.cancelTargetId in tally.serverToBot && (exists t :: LiveIn(views, t, tally.serverToBot[ev.cancelTargetId]))
        ==> LiveIn(views, pick, tally.serverToBot[ev.cancelTargetId])
  {
    hide OrderBook.Valid, OrderBook.View;
    books', tally', views' := books, tally, views;
    pick := AnyPick(tally, ev, views);
    if ev.endOfRun {
      return;
    }
    match ev.outcome {
      case Unknown =>
        tally' := NoteUnknown(tally, ev);
      case Rejected =>
        tally' := NoteAttempt(tally);
      case Ok =>
        match ev.action {
          case Intent(side) =>
            var book;
            books', book := GetBook(books, ev.ticker, views);
            var trades := book.Submit(ev.orderId, side, ev.orderType, ev.price, ev.volume);
            tally' := NoteIntent(tally, ev, trades);
            var b := BookFor(views, ev.ticker);
            views' := views[ev.ticker := RankedBook.Submit(b, ev.orderId, side, ev.orderType, ev.price, ev.volume)];
          case Cancel =>
            tally' := NoteAttempt(tally);
            if ev.cancelTargetId != 0 && ev.cancelTargetId in tally.serverToBot {
              var bot := tally.serverToBot[ev.cancelTargetId];
              pick := CancelFirst(books, bot, views);
              views' := CancelIn(views, bot, At(pick));
            }
          case Fill =>
            tally' := NoteFill(tally, ev);
          case OtherAction =>
        }
    }
  }

  /** Where nothing is cancelled any admissible pick will do. */
  ghost function AnyPick(tally: Tally, ev: Event, views: map<string, Book>): (pick: string)
    ensures ev.cancelTargetId in tally.serverToBot && (exists t :: LiveIn(views, t, tally.serverToBot[ev.cancelTargetId]))
        ==> LiveIn(views, pick, tally.serverToBot[ev.cancelTargetId])
  {
    if ev.cancelTargetId in tally.serverToBot && (exists t :: LiveIn(views, t, tally.serverToBot[ev.cancelTargetId])) then
      var t :| LiveIn(views, t, tally.serverToBot[ev.cancelTargetId]); t
    else ""
  }

  /** The replay loop over the sorted events. */
  method RunBooks(sorted: seq<Event>) returns (tally: Tally, ghost picks: seq<string>)
    ensures |picks| == |sorted| && PicksOk(sorted, picks)
    ensures tally == FoldPicks(sorted, picks).tally
  {
    hide OrderBook.Valid, OrderBook.View;
    var books: map<string, OrderBook> := map[];
    ghost var views: map<string, Book> := map[];
    tally, picks := START, [];
    for i := 0 to |sorted|
      invariant |picks| == i
      invariant Denotes(books, views)
      invariant forall t :: t in books ==> fresh(books[t])
      invariant FoldPicks(sorted[..i], picks) == State(views, tally)
      invariant PicksOk(sorted[..i], picks)
    {
      var ev := sorted[i];
      ghost var st := State(views, tally);
      ghost var pick := "";
      if !Duplicate(tally, ev) {
        tally := Note(tally, ev);
        books, tally, views, pick := Handle(books, tally, ev, views);
      }
      Snoc(sorted, i, picks, pick);
      picks := picks + [pick];
    }
    assert sorted[..|sorted|] == sorted;
  }

  lemma Snoc(sorted: seq<Event>, i: nat, picks: seq<string>, pick: string)
    requires i < |sorted| && |picks| == i && PicksOk(sorted[..i], picks)
    requires PickOk(FoldPicks(sorted[..i], picks), sorted[i], pick)
    ensures PicksOk(sorted[..i + 1], picks + [pick])
    ensures FoldPicks(sorted[..i + 1], picks + [pick]) == Step(FoldPicks(sorted[..i], picks), sorted[i], At(pick))
  {
    assert sorted[..i + 1][..i] == sorted[..i] && (picks + [pick])[..i] == picks;
  }

  /** Fills whose aggressor never submitted a recorded intent. */
  method CountOrphans(tally: Tally) returns (orphan: nat)
    ensures orphan == |Orphans(tally)|
  {
    orphan := 0;
    var rest := tally.observed.Keys;
    ghost var found: set<string> := {};
    while rest != {}
      invariant rest <= tally.observed.Keys
      invariant forall a :: a in found <==> a in Orphans(tally) && a !in rest
      invariant orphan == |found|
      decreases rest
    {
      var agg :| agg in rest;
      if agg !in tally.expected {
        found := found + {agg};
        orphan := orphan + 1;
      }
      rest := rest - {agg};
    }
    assert found == Orphans(tally);
  }

  /** Compare every recorded order, in sequence order, with what was reported for it. */
  method JudgeAll(t: Tally, globalTaint: bool) returns (j: Judged)
    requires globalTaint == GlobalTaint(t)
    ensures j == Judge(t, |t.aggressors|)
  {
    hide Diff, GlobalTaint;
    var first, mismatches, unverifiableFills, hard := t.firstUnverifiable, 0, 0, false;
    for k := 0 to |t.aggressors|
      invariant Judged(first, mismatches, unverifiableFills, hard) == Judge(t, k)
    {
      var agg := t.aggressors[k];
      var d := DiffAggressor(ExpectedOf(t, agg), ObservedOf(t, agg));
      match d {
        case Correct =>
        case Incorrect =>
          if globalTaint || (TickerOf(t, agg) in first && SeqOf(t, agg) > first[TickerOf(t, agg)]) {
            mismatches := mismatches + 1;
            first := MarkTaint(first, TickerOf(t, agg), SeqOf(t, agg));
          } else {
            hard := true;
          }
        case Unverified =>
          unverifiableFills := unverifiableFills + 1;
          first := MarkTaint(first, TickerOf(t, agg), SeqOf(t, agg));
      }
    }
    j := Judged(first, mismatches, unverifiableFills, hard);
  }

  /** The whole replay; `picks` records which book each cancel happened to reach first. */
  method Replay(events: seq<Event>) returns (v: Verdict, ghost picks: seq<string>)
    ensures |picks| == |SortBySeq(events)| && PicksOk(SortBySeq(events), picks)
    ensures v == VerdictOf(FoldPicks(SortBySeq(events), picks).tally)
    ensures NeverSplits(SortBySeq(events)) || OneTickerEach(events) ==> v == ReplayVerdict(events)
  {
    var t;
    t, picks := RunBooks(SortBySeq(events));
    v := Conclude(t);
    PicksAreForced(events, picks);
  }

  lemma PicksAreForced(events: seq<Event>, picks: seq<string>)
    requires |picks| == |SortBySeq(events)| && PicksOk(SortBySeq(events), picks)
    ensures NeverSplits(SortBySeq(events)) || OneTickerEach(events)
      ==> FoldPicks(SortBySeq(events), picks) == Fold(SortBySeq(events))
  {
    hide FoldPicks, Fold, PicksOk, NeverSplits, OneTickerEach, SortBySeq;
    if OneTickerEach(events) {
      SortedOneTicker(events);
    }
    if NeverSplits(SortBySeq(events)) {
      NeverSplitsIsFold(SortBySeq(events), picks);
    }
  }

  /** The second half of `Replay`: gaps, orphans, the comparison of every order, and the policy. */
  method Conclude(t: Tally) returns (v: Verdict)
    ensures v == VerdictOf(t)
  {
    hide Judge;
    var gap := 0;
    if 0 < t.maxSeq && |t.seen| < t.maxSeq {
      gap := t.maxSeq - |t.seen|;
    }
    var orphan := CountOrphans(t);
    var j := JudgeAll(t, 0 < gap || 0 < orphan);
    if j.hard {
      return Incorrect;
    }
    var unverifiable := t.unknown + gap + orphan + j.unverifiable + j.mismatches;
    var unresolved := 0 < j.mismatches || 0 < j.unverifiable || 0 < orphan;
    if t.attempts == 0 {
      return if unverifiable == 0 then Correct else Unverified;
    }
    if 2 * unverifiable > t.attempts {
      return Unverified;
    }
    if 20 * unverifiable >= t.attempts {
      return Unverified;
    }
    return if unresolved then Unverified else Correct;
  }

  /** A submission is judged only once its end-of-run marker is among its events. */
  method FinalizeEvents(events: seq<Event>) returns (v: Verdict, ghost picks: seq<string>)
    ensures |picks| == |SortBySeq(events)|
    ensures if HasEnd(events) then PicksOk(SortBySeq(events), picks) && v == VerdictOf(FoldPicks(SortBySeq(events), picks).tally)
            else v == Unverified
    ensures NeverSplits(SortBySeq(events)) || OneTickerEach(events) ==> v == Finalize(events)
  {
    hide FoldPicks, PicksOk, VerdictOf, NeverSplits, OneTickerEach, SortBySeq;
    for i := 0 to |events|
      invariant forall k :: 0 <= k < i ==> !events[k].endOfRun
    {
      if events[i].endOfRun {
        v, picks := Replay(events);
        return;
      }
    }
    return Unverified, seq(|SortBySeq(events)|, _ => "");
  }
}
