/** Facts about the replay fold that hold of any event list, honest or not. */
module ReplayLaws {
  import opened MarketTypes
  import opened RankedBook
  import opened BookLaws
  import opened ReplaySpec

  // ----- sequence numbers -----

  function SeqNos(es: seq<Event>): set<nat> {
    set e | e in es && e.seqNo != 0 :: e.seqNo
  }

  lemma SeqNosSnoc(es: seq<Event>, ev: Event)
    ensures SeqNos(es + [ev]) == SeqNos(es) + (if ev.seqNo != 0 then {ev.seqNo} else {})
  {
    assert forall e :: e in es + [ev] <==> e in es || e == ev;
  }

  lemma Unsnoc(es: seq<Event>)
    requires es != []
    ensures es == es[..|es| - 1] + [es[|es| - 1]]
  {
  }

  /** The bookkeeping invariant of the fold. */
  ghost predicate Kept(t: Tally) {
    && t.unknown <= t.attempts
    && (forall s :: s in t.seen ==> 0 < s <= t.maxSeq)
    && (t.maxSeq == 0 || t.maxSeq in t.seen)
    && t.expected.Keys == t.aggTicker.Keys == t.aggSeq.Keys
    && (forall a :: a in t.aggressors <==> a in t.expected)
  }

  /** `t'` records something more than `t` without counting another sequence number. */
  ghost predicate Records(t: Tally, t': Tally) {
    (Kept(t) ==> Kept(t')) && t'.seen == t.seen && t'.maxSeq == t.maxSeq
  }

  lemma NoteIntentKeeps(t: Tally, ev: Event, trades: seq<Trade>)
    ensures Records(t, NoteIntent(t, ev, trades))
  {
    var t' := NoteIntent(t, ev, trades);
    assert forall a :: a in t'.aggressors <==> a in t.aggressors || a == ev.orderId;
  }

  lemma OtherNotesKeep(t: Tally, ev: Event)
    ensures Records(t, t) && Records(t, NoteUnknown(t, ev)) && Records(t, NoteAttempt(t)) && Records(t, NoteFill(t, ev))
  {
    hide MarkTaint;
  }

  lemma ProcessKeeps(st: State, ev: Event, rule: CancelRule)
    ensures Records(st.tally, Process(st, ev, rule).tally)
  {
    hide Submit, SubmitTrades, CancelIn, NoteIntent, NoteUnknown, NoteAttempt, NoteFill, Records;
    OtherNotesKeep(st.tally, ev);
    if ev.action.Intent? {
      var b := BookFor(st.books, ev.ticker);
      NoteIntentKeeps(st.tally, ev, SubmitTrades(b, ev.orderId, ev.action.side, ev.orderType, ev.price, ev.volume));
    }
  }

  lemma StepKeeps(st: State, ev: Event, rule: CancelRule)
    requires Kept(st.tally)
    ensures Kept(Step(st, ev, rule).tally)
    ensures Step(st, ev, rule).tally.seen == st.tally.seen + (if ev.seqNo != 0 then {ev.seqNo} else {})
  {
    hide Process;
    if !Duplicate(st.tally, ev) {
      ProcessKeeps(st.(tally := Note(st.tally, ev)), ev, rule);
    }
  }

  lemma {:induction false} FoldKeeps(es: seq<Event>)
    ensures Kept(Fold(es).tally) && Fold(es).tally.seen == SeqNos(es)
  {
    hide Step;
    if es != [] {
      FoldKeeps(es[..|es| - 1]);
      Unsnoc(es);
      SeqNosSnoc(es[..|es| - 1], es[|es| - 1]);
      StepKeeps(Fold(es[..|es| - 1]), es[|es| - 1], Everywhere);
    }
  }

  // ----- the gap is the number of missing sequence numbers -----

  function UpTo(n: nat): set<nat> {
    if n == 0 then {} else UpTo(n - 1) + {n}
  }

  lemma {:induction false} UpToFacts(n: nat)
    ensures |UpTo(n)| == n
    ensures forall k :: k in UpTo(n) <==> 1 <= k <= n
  {
    if n != 0 {
      UpToFacts(n - 1);
    }
  }

  /** Pigeonhole: the counter comparison finds exactly the holes below the highest number seen. */
  lemma GapCountsHoles(t: Tally)
    requires Kept(t)
    ensures Gap(t) == |UpTo(t.maxSeq) - t.seen|
  {
    UpToFacts(t.maxSeq);
    assert t.seen <= UpTo(t.maxSeq);
    assert |UpTo(t.maxSeq) - t.seen| == |UpTo(t.maxSeq)| - |t.seen| by {
      assert UpTo(t.maxSeq) == (UpTo(t.maxSeq) - t.seen) + t.seen;
    }
  }

  lemma NoGapMeansAllSeen(t: Tally)
    requires Kept(t) && Gap(t) == 0
    ensures t.seen == UpTo(t.maxSeq)
  {
    GapCountsHoles(t);
    UpToFacts(t.maxSeq);
    assert UpTo(t.maxSeq) - t.seen == {};
  }

  // ----- redeliveries change nothing -----

  /** The events the fold acts upon: the first delivery of each sequence number. */
  function Dedup(es: seq<Event>): seq<Event> {
    if es == [] then []
    else
      var front, last := es[..|es| - 1], es[|es| - 1];
      if last.seqNo != 0 && last.seqNo in SeqNos(front) then Dedup(front) else Dedup(front) + [last]
  }

  lemma DuplicateIsSkipped(st: State, ev: Event, rule: CancelRule)
    requires Duplicate(st.tally, ev)
    ensures Step(st, ev, rule) == st
  {
  }

  lemma {:induction false} DedupFolds(es: seq<Event>)
    ensures Fold(Dedup(es)) == Fold(es) && SeqNos(Dedup(es)) == SeqNos(es)
  {
    hide Step, Process;
    if es != [] {
      var front, last := es[..|es| - 1], es[|es| - 1];
      DedupFolds(front);
      FoldKeeps(front);
      Unsnoc(es);
      SeqNosSnoc(front, last);
      if last.seqNo != 0 && last.seqNo in SeqNos(front) {
        DuplicateIsSkipped(Fold(front), last, Everywhere);
      } else {
        SeqNosSnoc(Dedup(front), last);
        assert Dedup(es)[..|Dedup(es)| - 1] == Dedup(front);
      }
    }
  }

  // ----- the verdict is a function of the set of events -----

  predicate PositiveSeqs(es: seq<Event>) {
    forall e :: e in es ==> 0 < e.seqNo
  }

  /** A sequence number stands for one event, however often that event is delivered. */
  predicate Consistent(es: seq<Event>) {
    forall e, f :: e in es && f in es && e.seqNo == f.seqNo ==> e == f
  }

  ghost predicate SameEvents(a: seq<Event>, b: seq<Event>) {
    forall e :: e in a <==> e in b
  }

  lemma SameMultisetSameEvents(a: seq<Event>, b: seq<Event>)
    requires multiset(a) == multiset(b)
    ensures SameEvents(a, b)
  {
    forall e ensures e in a <==> e in b {
      assert e in multiset(a) <==> e in a;
      assert e in multiset(b) <==> e in b;
    }
  }

  predicate Ascending(es: seq<Event>) {
    forall i, j :: 0 <= i < j < |es| ==> es[i].seqNo <= es[j].seqNo
  }

  predicate StrictlyAscending(es: seq<Event>) {
    forall i, j :: 0 <= i < j < |es| ==> es[i].seqNo < es[j].seqNo
  }

  lemma SortAscends(es: seq<Event>)
    ensures Ascending(SortBySeq(es)) && SameEvents(SortBySeq(es), es)
  {
    var key := (e: Event) => e.seqNo;
    StableSort.SortIsSorted(es, key);
    StableSort.SortSameElements(es, key);
    var r := SortBySeq(es);
    forall i, j | 0 <= i < j < |r| ensures r[i].seqNo <= r[j].seqNo {
      StableSort.SortedPairs(r, key, i, j);
    }
  }

  lemma {:induction false} DedupElements(es: seq<Event>)
    requires PositiveSeqs(es) && Consistent(es)
    ensures SameEvents(Dedup(es), es)
  {
    if es != [] {
      var front, last := es[..|es| - 1], es[|es| - 1];
      Unsnoc(es);
      assert forall e :: e in es <==> e in front || e == last;
      DedupElements(front);
      if last.seqNo in SeqNos(front) {
        var e :| e in front && e.seqNo == last.seqNo;
        assert e == last;
      }
    }
  }

  lemma {:induction false} DedupIsPart(es: seq<Event>)
    ensures forall e :: e in Dedup(es) ==> e in es
  {
    if es != [] {
      DedupIsPart(es[..|es| - 1]);
    }
  }

  /** In an ascending list a number not seen before exceeds everything before it. */
  lemma LastIsGreatest(es: seq<Event>, e: Event)
    requires Ascending(es) && PositiveSeqs(es) && es != [] && e in es[..|es| - 1]
    requires es[|es| - 1].seqNo !in SeqNos(es[..|es| - 1])
    ensures e.seqNo < es[|es| - 1].seqNo
  {
    var k :| 0 <= k < |es| - 1 && es[k] == e;
    assert e in es && e.seqNo in SeqNos(es[..|es| - 1]);
  }

  lemma {:induction false} DedupStrict(es: seq<Event>)
    requires PositiveSeqs(es) && Ascending(es)
    ensures StrictlyAscending(Dedup(es))
  {
    if es != [] {
      var front, last := es[..|es| - 1], es[|es| - 1];
      assert last in es && forall e :: e in front ==> e in es;
      DedupStrict(front);
      if last.seqNo !in SeqNos(front) {
        DedupIsPart(front);
        forall i | 0 <= i < |Dedup(front)| ensures Dedup(front)[i].seqNo < last.seqNo {
          assert Dedup(front)[i] in front;
          LastIsGreatest(es, Dedup(front)[i]);
        }
      }
    }
  }

  lemma SomeEvent(es: seq<Event>)
    ensures es != [] ==> exists e :: e in es
  {
    if es != [] {
      assert es[0] in es;
    }
  }

  lemma {:induction false} StrictIsUnique(a: seq<Event>, b: seq<Event>)
    requires StrictlyAscending(a) && StrictlyAscending(b) && SameEvents(a, b)
    ensures a == b
  {
    if a == [] {
      SomeEvent(b);
    } else {
      var x := a[|a| - 1];
      assert x in a;
      var i :| 0 <= i < |b| && b[i] == x;
      var y := b[|b| - 1];
      assert y in b;
      var j :| 0 <= j < |a| && a[j] == y;
      assert x == y;
      var a', b' := a[..|a| - 1], b[..|b| - 1];
      FrontIsOlder(a);
      FrontIsOlder(b);
      StrictIsUnique(a', b');
    }
  }

  lemma FrontIsOlder(es: seq<Event>)
    requires StrictlyAscending(es) && es != []
    ensures var front, x := es[..|es| - 1], es[|es| - 1];
      es == front + [x] && StrictlyAscending(front) && forall e :: e in front <==> e in es && e != x
  {
    var front, x := es[..|es| - 1], es[|es| - 1];
    assert es == front + [x];
    forall e | e in front ensures e != x {
      var i :| 0 <= i < |front| && front[i] == e;
      assert es[i].seqNo < es[|es| - 1].seqNo;
    }
  }

  lemma SameFirstDeliveries(a: seq<Event>, b: seq<Event>)
    requires PositiveSeqs(a) && Consistent(a) && SameEvents(a, b)
    ensures Dedup(SortBySeq(a)) == Dedup(SortBySeq(b))
  {
    hide SortBySeq;
    SortAscends(a);
    SortAscends(b);
    DedupStrict(SortBySeq(a));
    DedupStrict(SortBySeq(b));
    DedupElements(SortBySeq(a));
    DedupElements(SortBySeq(b));
    StrictIsUnique(Dedup(SortBySeq(a)), Dedup(SortBySeq(b)));
  }

  /** Reordering, redelivery and the order in which the sort meets equal keys leave the whole replay unchanged. */
  lemma FoldDependsOnSet(a: seq<Event>, b: seq<Event>)
    requires PositiveSeqs(a) && Consistent(a) && SameEvents(a, b)
    ensures Fold(SortBySeq(a)) == Fold(SortBySeq(b))
  {
    hide Step, SortBySeq;
    SameFirstDeliveries(a, b);
    DedupFolds(SortBySeq(a));
    DedupFolds(SortBySeq(b));
  }

  lemma VerdictDependsOnSet(a: seq<Event>, b: seq<Event>)
    requires PositiveSeqs(a) && Consistent(a) && SameEvents(a, b)
    ensures ReplayVerdict(a) == ReplayVerdict(b) && Finalize(a) == Finalize(b)
  {
    hide VerdictOf, Fold, SortBySeq;
    FoldDependsOnSet(a, b);
  }

  // ----- the order in which a map is walked does not matter -----

  predicate AcceptedOrder(e: Event) {
    !e.endOfRun && e.outcome.Ok? && e.action.Intent?
  }

  /** No order id is accepted on two tickers; on one ticker it may be accepted again and again. */
  predicate OneTickerEach(es: seq<Event>) {
    forall e, f :: e in es && f in es && AcceptedOrder(e) && AcceptedOrder(f) && e.orderId == f.orderId ==> e.ticker == f.ticker
  }

  /** Every live order rests in the book of the ticker it was submitted for, and nowhere else. */
  ghost predicate HomeOnly(st: State) {
    forall t, id :: LiveIn(st.books, t, id) ==> id in st.tally.aggTicker && st.tally.aggTicker[id] == t
  }

  lemma CancelKeepsHome(st: State, bot: string, tally: Tally)
    requires HomeOnly(st) && tally.aggTicker == st.tally.aggTicker
    ensures HomeOnly(State(CancelIn(st.books, bot, Everywhere), tally))
  {
    hide CancelOrder;
    var st' := State(CancelIn(st.books, bot, Everywhere), tally);
    forall t, id | LiveIn(st'.books, t, id) ensures LiveIn(st.books, t, id) {
      CancelDropsOneId(st.books[t], bot);
    }
  }

  /** The order's id is new, or on file for the same ticker. */
  predicate SameTicker(t: Tally, ev: Event) {
    ev.orderId in t.aggTicker ==> t.aggTicker[ev.orderId] == ev.ticker
  }

  lemma IntentKeepsHome(st: State, ev: Event)
    requires HomeOnly(st) && AcceptedOrder(ev) && SameTicker(st.tally, ev)
    ensures HomeOnly(Process(st, ev, Everywhere))
  {
    hide Submit, SubmitTrades, CancelIn;
    var st' := Process(st, ev, Everywhere);
    var b := BookFor(st.books, ev.ticker);
    SubmitAddsOneId(b, ev.orderId, ev.action.side, ev.orderType, ev.price, ev.volume);
    forall t, id | LiveIn(st'.books, t, id)
      ensures LiveIn(st.books, t, id) || (t == ev.ticker && id == ev.orderId)
    {
    }
  }

  lemma ProcessKeepsHome(st: State, ev: Event)
    requires HomeOnly(st) && (AcceptedOrder(ev) ==> SameTicker(st.tally, ev))
    ensures HomeOnly(Process(st, ev, Everywhere))
  {
    if AcceptedOrder(ev) {
      IntentKeepsHome(st, ev);
    } else {
      hide HomeOnly, CancelIn, Submit, SubmitTrades;
      SameBooksKeepHome(st, Process(st, ev, Everywhere).tally);
      if ev.cancelTargetId in st.tally.serverToBot {
        CancelKeepsHome(st, st.tally.serverToBot[ev.cancelTargetId], NoteAttempt(st.tally));
      }
    }
  }

  lemma SameBooksKeepHome(st: State, tally: Tally)
    requires HomeOnly(st)
    ensures tally.aggTicker == st.tally.aggTicker ==> HomeOnly(st.(tally := tally))
  {
  }

  lemma AggTickerGrows(st: State, ev: Event, rule: CancelRule)
    ensures Process(st, ev, rule).tally.aggTicker
         == if AcceptedOrder(ev) then st.tally.aggTicker[ev.orderId := ev.ticker] else st.tally.aggTicker
  {
    hide Submit, SubmitTrades, CancelIn, NoteIntent, NoteUnknown, NoteAttempt, NoteFill;
    NotesKeepTicker(st.tally, ev);
    if AcceptedOrder(ev) {
      var b := BookFor(st.books, ev.ticker);
      NoteIntentTicker(st.tally, ev, SubmitTrades(b, ev.orderId, ev.action.side, ev.orderType, ev.price, ev.volume));
    }
  }

  lemma NoteIntentTicker(t: Tally, ev: Event, trades: seq<Trade>)
    ensures NoteIntent(t, ev, trades).aggTicker == t.aggTicker[ev.orderId := ev.ticker]
  {
  }

  lemma NotesKeepTicker(t: Tally, ev: Event)
    ensures NoteUnknown(t, ev).aggTicker == NoteAttempt(t).aggTicker == NoteFill(t, ev).aggTicker == t.aggTicker
  {
  }

  /** The ticker on file for an id is one some order with that id was accepted on. */
  lemma {:induction false} AggTickerOrigin(es: seq<Event>, id: string)
    requires id in Fold(es).tally.aggTicker
    ensures exists e :: e in es && AcceptedOrder(e) && e.orderId == id && e.ticker == Fold(es).tally.aggTicker[id]
  {
    hide Process;
    var front, last := es[..|es| - 1], es[|es| - 1];
    var st := Fold(front);
    assert last in es;
    if !Duplicate(st.tally, last) {
      AggTickerGrows(st.(tally := Note(st.tally, last)), last, Everywhere);
    }
    if Duplicate(st.tally, last) || !AcceptedOrder(last) || last.orderId != id {
      AggTickerOrigin(front, id);
      var e :| e in front && AcceptedOrder(e) && e.orderId == id && e.ticker == Fold(front).tally.aggTicker[id];
      assert e in es;
    }
  }

  lemma TickerIsTheSame(es: seq<Event>)
    requires es != [] && OneTickerEach(es) && AcceptedOrder(es[|es| - 1])
    ensures SameTicker(Fold(es[..|es| - 1]).tally, es[|es| - 1])
  {
    hide Fold, Step;
    var front, last := es[..|es| - 1], es[|es| - 1];
    if last.orderId in Fold(front).tally.aggTicker {
      AggTickerOrigin(front, last.orderId);
      var e :| e in front && AcceptedOrder(e) && e.orderId == last.orderId
        && e.ticker == Fold(front).tally.aggTicker[last.orderId];
      assert e in es && last in es;
    }
  }

  lemma {:induction false} FoldKeepsHome(es: seq<Event>)
    requires OneTickerEach(es)
    ensures HomeOnly(Fold(es))
  {
    hide Process, HomeOnly;
    if es != [] {
      var front, last := es[..|es| - 1], es[|es| - 1];
      assert forall e :: e in front ==> e in es;
      FoldKeepsHome(front);
      var st := Fold(front);
      if !Duplicate(st.tally, last) {
        if AcceptedOrder(last) {
          TickerIsTheSame(es);
          assert Note(st.tally, last).aggTicker == st.tally.aggTicker;
        }
        SameBooksKeepHome(st, Note(st.tally, last));
        ProcessKeepsHome(st.(tally := Note(st.tally, last)), last);
      }
    } else {
      EmptyHome();
    }
  }

  lemma EmptyHome()
    ensures HomeOnly(State(map[], START))
  {
  }

}
