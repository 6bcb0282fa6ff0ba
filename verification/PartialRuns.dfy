/**
 What a pass says when records are missing. The received part of a run is replayed as a run of its own, of the requests
 whose records arrived; this is exactly what the verdict `Correct` vouches for, whatever the contestant reported.
 */
module PartialRuns {
  import opened MarketTypes
  import opened RankedBook
  import opened Differential
  import opened Writer
  import opened ReplaySpec
  import opened ReplayLaws
  import opened VerdictLaws
  import opened Contestant
  import opened Soundness
  import opened SoundnessTheorems
  import opened HiddenCancel
  import opened OrderlyRuns

  // ----- the part of a stream that arrived, in its order -----

  function Got(es: seq<Event>, received: seq<Event>): seq<Event> {
    if es == [] then []
    else Got(es[..|es| - 1], received) + (if es[|es| - 1] in received then [es[|es| - 1]] else [])
  }

  lemma {:induction false} GotFacts(es: seq<Event>, received: seq<Event>)
    requires StrictlyAscending(es)
    ensures var g := Got(es, received);
      && StrictlyAscending(g) && |g| <= |es| && (forall e :: e in g <==> e in es && e in received)
  {
    if es != [] {
      FrontIsOlder(es);
      GotFacts(es[..|es| - 1], received);
      var g, last := Got(es[..|es| - 1], received), es[|es| - 1];
      forall e | e in g ensures e.seqNo < last.seqNo {
        var i :| 0 <= i < |es| - 1 && es[..|es| - 1][i] == e;
      }
    }
  }

  lemma {:induction false} GotConcat(a: seq<Event>, b: seq<Event>, received: seq<Event>)
    ensures Got(a + b, received) == Got(a, received) + Got(b, received)
  {
    if b == [] {
      assert a + b == a;
    } else {
      assert (a + b)[..|a + b| - 1] == a + b[..|b| - 1];
      GotConcat(a, b[..|b| - 1], received);
    }
  }

  lemma GotOne(e: Event, received: seq<Event>)
    ensures Got([e], received) == if e in received then [e] else []
  {
    assert [e][..0] == [];
  }

  /** What is replayed is the received part of the stream in stream order. */
  lemma PartFolds(submission: string, attempts: seq<Attempt>, endAt: int, received: seq<Event>)
    requires PartOf(received, Stream(submission, attempts, endAt))
    ensures Fold(SortBySeq(received)) == Fold(Got(Stream(submission, attempts, endAt), received))
    ensures SameEvents(Got(Stream(submission, attempts, endAt), received), received)
    ensures StrictlyAscending(Got(Stream(submission, attempts, endAt), received))
  {
    hide Stream, Fold, SortBySeq, Got;
    var s := Stream(submission, attempts, endAt);
    StreamIsStrict(submission, attempts, endAt);
    GotFacts(s, received);
    var g := Got(s, received);
    assert PositiveSeqs(g) && Consistent(g);
    StrictFoldsAsIs(g);
    FoldDependsOnSet(g, received);
  }

  // ----- what arrived of a run -----

  /** The record of the exchange that comes after the exchanges `front`. */
  function IntentOf(submission: string, front: seq<Exchange>, x: Exchange): Event {
    IntentEvent(submission, x.attempt, x.Result(), ServerIdOf(x.attempt.response), |RunLog(submission, Attempts(front))| + 1)
  }

  function FillsOf(submission: string, front: seq<Exchange>, x: Exchange): seq<Event> {
    FillEvents(submission, x.attempt, ServerIdOf(x.attempt.response), TradesOf(x.attempt.response),
               |RunLog(submission, Attempts(front))| + 2)
  }

  /** The accepted requests whose records arrived. */
  function Heard(submission: string, xs: seq<Exchange>, received: seq<Event>): seq<Exchange> {
    if xs == [] then []
    else
      var front, x := xs[..|xs| - 1], xs[|xs| - 1];
      Heard(submission, front, received)
      + (if x.Result().Ok? && IntentOf(submission, front, x) in received then [x] else [])
  }

  /** How many attempts are on record at all, and how many of those with an unknown outcome. */
  function OnRecord(submission: string, xs: seq<Exchange>, received: seq<Event>): nat {
    if xs == [] then 0
    else
      var front, x := xs[..|xs| - 1], xs[|xs| - 1];
      OnRecord(submission, front, received) + (if IntentOf(submission, front, x) in received then 1 else 0)
  }

  function UnknownOnRecord(submission: string, xs: seq<Exchange>, received: seq<Event>): nat {
    if xs == [] then 0
    else
      var front, x := xs[..|xs| - 1], xs[|xs| - 1];
      UnknownOnRecord(submission, front, received)
      + (if x.Result().Unknown? && IntentOf(submission, front, x) in received then 1 else 0)
  }

  /** A received fill as it reads to one who knows the server ids of `w`. */
  function Reading(w: World, e: Event): ObservedFill {
    ObservedFill(OwnerOf(w, e.matchedOrderId), e.matchedOrderId in w.owner, e.matchedOrderId, e.volume, e.executionPrice)
  }

  function Readings(w: World, es: seq<Event>): seq<ObservedFill> {
    if es == [] then [] else Readings(w, es[..|es| - 1]) + [Reading(w, es[|es| - 1])]
  }

  /** The fills that arrived under an id, read with the server ids on record by then. */
  function Witnessed(submission: string, xs: seq<Exchange>, received: seq<Event>, a: string): seq<ObservedFill> {
    if xs == [] then []
    else
      var front, x := xs[..|xs| - 1], xs[|xs| - 1];
      if a != "" && RequestId(x.attempt.request) == a then
        Witnessed(submission, front, received, a)
        + Readings(After(Heard(submission, xs, received)), Got(FillsOf(submission, front, x), received))
      else Witnessed(submission, front, received, a)
  }

  lemma HeardGrows(submission: string, xs: seq<Exchange>, x: Exchange, received: seq<Event>, a: string)
    ensures var all := xs + [x];
      && Heard(submission, all, received)
           == Heard(submission, xs, received) + (if x.Result().Ok? && IntentOf(submission, xs, x) in received then [x] else [])
      && OnRecord(submission, all, received)
           == OnRecord(submission, xs, received) + (if IntentOf(submission, xs, x) in received then 1 else 0)
      && UnknownOnRecord(submission, all, received)
           == UnknownOnRecord(submission, xs, received)
              + (if x.Result().Unknown? && IntentOf(submission, xs, x) in received then 1 else 0)
      && Witnessed(submission, all, received, a)
           == if a != "" && RequestId(x.attempt.request) == a then
                Witnessed(submission, xs, received, a)
                + Readings(After(Heard(submission, all, received)), Got(FillsOf(submission, xs, x), received))
              else Witnessed(submission, xs, received, a)
  {
    hide After, RequestId, FillsOf, IntentOf, Readings, Got, OutcomeOf;
    assert (xs + [x])[..|xs|] == xs;
  }

  // ----- the part of an orderly run is an orderly run -----

  lemma OrderlySnoc(xs: seq<Exchange>, x: Exchange)
    requires OrderlyRun(xs) && Orderly(After(xs), x)
    ensures OrderlyRun(xs + [x])
  {
    hide After, Orderly;
    assert (xs + [x])[..|xs|] == xs;
  }

  lemma LastOfOrderly(xs: seq<Exchange>)
    requires OrderlyRun(xs) && xs != []
    ensures var front, x := xs[..|xs| - 1], xs[|xs| - 1];
      front + [x] == xs && OrderlyRun(front) && Orderly(After(front), x) && After(xs) == Next(After(front), x)
  {
    hide Next, Orderly;
  }

  lemma {:induction false} HeardIsOrderly(submission: string, xs: seq<Exchange>, received: seq<Event>)
    requires OrderlyRun(xs)
    ensures var hs := Heard(submission, xs, received);
      OrderlyRun(hs) && After(hs).used <= After(xs).used && After(hs).owner.Keys <= After(xs).owner.Keys
  {
    hide Next, Orderly, IntentOf, OrderlyRun, After, Heard, OutcomeOf;
    if xs == [] {
      NothingHeard(submission, received);
    } else {
      var front, x := xs[..|xs| - 1], xs[|xs| - 1];
      LastOfOrderly(xs);
      HeardIsOrderly(submission, front, received);
      var hs := Heard(submission, front, received);
      HeardGrows(submission, front, x, received, "");
      assert hs + [] == hs;
      StillOrderly(After(hs), After(front), x);
      GrowsAlike(After(hs), After(front), x);
      Snoc(hs, x);
      OrderlySnoc(hs, x);
    }
  }

  lemma NothingHeard(submission: string, received: seq<Event>)
    ensures Heard(submission, [], received) == [] && OrderlyRun([])
  {
  }

  lemma StillOrderly(v: World, w: World, x: Exchange)
    requires Orderly(w, x) && v.used <= w.used && v.owner.Keys <= w.owner.Keys
    ensures Orderly(v, x)
  {
  }

  lemma GrowsAlike(v: World, w: World, x: Exchange)
    requires Orderly(w, x) && v.used <= w.used && v.owner.Keys <= w.owner.Keys
    ensures v.used <= Next(w, x).used && v.owner.Keys <= Next(w, x).owner.Keys
    ensures x.Result().Ok? ==> Next(v, x).used <= Next(w, x).used && Next(v, x).owner.Keys <= Next(w, x).owner.Keys
  {
    hide Submit, CancelOrder, BookFor;
  }

  lemma {:induction false} HeardIsAccepted(submission: string, xs: seq<Exchange>, received: seq<Event>)
    ensures forall x :: x in Heard(submission, xs, received) ==> x.Result().Ok?
  {
    hide IntentOf;
    if xs != [] {
      HeardIsAccepted(submission, xs[..|xs| - 1], received);
    }
  }

  // ----- the checker's files -----

  /** What the checker has on file are the requests `hs`: books, ids, expectations. */
  ghost predicate Filed(st: State, hs: seq<Exchange>) {
    && SameBooks(st.books, After(hs).books) && NamesAgree(st.tally, After(hs))
    && st.tally.aggressors == Accepted(hs) && forall a :: ExpectedOf(st.tally, a) == Due(hs, a)
  }

  /** Nothing beyond number `n` has been seen. */
  ghost predicate Below(t: Tally, n: nat) {
    Kept(t) && t.maxSeq <= n
  }

  lemma NewNumber(st: State, ev: Event)
    requires Kept(st.tally) && st.tally.maxSeq < ev.seqNo
    ensures Note(st.tally, ev) == st.tally.(seen := st.tally.seen + {ev.seqNo}, maxSeq := ev.seqNo)
    ensures Step(st, ev, Everywhere) == Process(st.(tally := Note(st.tally, ev)), ev, Everywhere)
    ensures Kept(Note(st.tally, ev))
  {
    hide Process;
  }

  lemma NewNumberKept(st: State, ev: Event, m: nat)
    requires Below(st.tally, m) && ev.seqNo == m + 1
    ensures Below(Step(st, ev, Everywhere).tally, m + 1)
  {
    hide Process;
    NewNumber(st, ev);
    ProcessKeeps(st.(tally := Note(st.tally, ev)), ev, Everywhere);
  }

  lemma NotesFileNothing(t: Tally, ev: Event)
    ensures SameOrders(t, NoteUnknown(t, ev)) && SameOrders(t, NoteAttempt(t)) && SameOrders(t, Note(t, ev))
    ensures NoteUnknown(t, ev).unknown == t.unknown + 1 && NoteAttempt(t).unknown == t.unknown == Note(t, ev).unknown
    ensures NoteUnknown(t, ev).attempts == NoteAttempt(t).attempts == t.attempts + 1 == Note(t, ev).attempts + 1
  {
  }

  lemma QuietProcess(st: State, ev: Event)
    requires ev.endOfRun || !ev.outcome.Ok?
    ensures var st' := Process(st, ev, Everywhere);
      && st'.books == st.books && SameOrders(st.tally, st'.tally)
      && st'.tally.attempts == st.tally.attempts + (if ev.endOfRun then 0 else 1)
      && st'.tally.unknown == st.tally.unknown + (if !ev.endOfRun && ev.outcome.Unknown? then 1 else 0)
  {
    hide NoteUnknown, NoteAttempt, SameOrders, Submit, SubmitTrades, CancelIn;
    NotesFileNothing(st.tally, ev);
    SameOrdersRefl(st.tally);
  }

  lemma SameOrdersRefl(t: Tally)
    ensures SameOrders(t, t)
  {
  }

  lemma SameFiling(st: State, st': State, hs: seq<Exchange>)
    requires Filed(st, hs) && st'.books == st.books && SameOrders(st.tally, st'.tally)
    ensures Filed(st', hs)
  {
    hide SameBooks, Due, Accepted, After;
    SameExpectations(st.tally, st'.tally, hs);
  }

  /** A record that files no order and cancels none. */
  lemma QuietArrives(st: State, hs: seq<Exchange>, ev: Event)
    requires Filed(st, hs) && Kept(st.tally) && st.tally.maxSeq < ev.seqNo
    requires ev.endOfRun || !ev.outcome.Ok?
    ensures var st' := Step(st, ev, Everywhere);
      && Filed(st', hs) && st'.tally.observed == st.tally.observed
      && st'.tally.attempts == st.tally.attempts + (if ev.endOfRun then 0 else 1)
      && st'.tally.unknown == st.tally.unknown + (if !ev.endOfRun && ev.outcome.Unknown? then 1 else 0)
  {
    hide Process, Filed, Kept, Note;
    NewNumber(st, ev);
    NotesFileNothing(st.tally, ev);
    QuietProcess(st.(tally := Note(st.tally, ev)), ev);
    SameFiling(st, Step(st, ev, Everywhere), hs);
  }

  lemma AcceptedFiles(t: Tally, t': Tally, hs: seq<Exchange>, x: Exchange, trades: seq<Trade>)
    requires t.aggressors == Accepted(hs) && forall a :: ExpectedOf(t, a) == Due(hs, a)
    requires x.attempt.request.NewOrder? && x.Result().Ok? && trades == TrueTrades(After(hs), x.attempt.request)
    requires t'.aggressors == t.aggressors + [x.attempt.request.orderId]
    requires t'.expected == t.expected[x.attempt.request.orderId := trades]
    ensures t'.aggressors == Accepted(hs + [x]) && forall a :: ExpectedOf(t', a) == Due(hs + [x], a)
  {
    hide Accepted, Due, Reported, After, TrueTrades, OutcomeOf;
    RunsGrow(hs, x, "");
    forall a ensures ExpectedOf(t', a) == Due(hs + [x], a) {
      RunsGrow(hs, x, a);
    }
  }

  lemma CancelFilesNothing(t: Tally, hs: seq<Exchange>, x: Exchange)
    requires t.aggressors == Accepted(hs) && forall a :: ExpectedOf(t, a) == Due(hs, a)
    requires x.attempt.request.CancelRequest?
    ensures t.aggressors == Accepted(hs + [x]) && forall a :: ExpectedOf(t, a) == Due(hs + [x], a)
  {
    hide Accepted, Due, Reported, After, TrueTrades, OutcomeOf;
    RunsGrow(hs, x, "");
    assert Accepted(hs) + [] == Accepted(hs);
    forall a ensures ExpectedOf(t, a) == Due(hs + [x], a) {
      RunsGrow(hs, x, a);
    }
  }

  lemma OrderArrives(st: State, hs: seq<Exchange>, x: Exchange, submission: string, n: nat)
    requires Filed(st, hs) && Below(st.tally, n) && Orderly(After(hs), x)
    requires x.Result().Ok? && x.attempt.request.NewOrder?
    ensures var st' := Step(st, IntentEvent(submission, x.attempt, Ok, x.ServerId(), n + 1), Everywhere);
      && Filed(st', hs + [x]) && st'.tally.observed == st.tally.observed
      && st'.tally.attempts == st.tally.attempts + 1 && st'.tally.unknown == st.tally.unknown
  {
    hide After, Accepted, Due, Kept, Submit, SubmitTrades, Next, Orderly, Process, SameBooks, OutcomeOf, ExpectedOf;
    var ev, r := IntentEvent(submission, x.attempt, Ok, x.ServerId(), n + 1), x.attempt.request;
    NewNumber(st, ev);
    IntentProcess(st.(tally := Note(st.tally, ev)), ev);
    Snoc(hs, x);
    OrderNext(After(hs), x);
    SameBook(st.books, After(hs).books, r.ticker);
    var b := BookFor(st.books, r.ticker);
    var trades := SubmitTrades(b, r.orderId, r.side, r.otype, r.price, r.quantity);
    PlacedBooks(st.books, After(hs).books, r.ticker, Submit(b, r.orderId, r.side, r.otype, r.price, r.quantity));
    AcceptedFiles(st.tally, Step(st, ev, Everywhere).tally, hs, x, trades);
  }

  lemma SameBook(books: map<string, Book>, books': map<string, Book>, t: string)
    requires SameBooks(books, books')
    ensures BookFor(books, t) == BookFor(books', t)
  {
  }

  lemma CancelArrives(st: State, hs: seq<Exchange>, x: Exchange, submission: string, n: nat)
    requires Filed(st, hs) && Below(st.tally, n) && Orderly(After(hs), x) && WorldOk(After(hs)) && After(hs).dirty == {}
    requires x.Result().Ok? && x.attempt.request.CancelRequest?
    ensures var st' := Step(st, IntentEvent(submission, x.attempt, Ok, x.ServerId(), n + 1), Everywhere);
      && Filed(st', hs + [x]) && st'.tally.observed == st.tally.observed
      && st'.tally.attempts == st.tally.attempts + 1 && st'.tally.unknown == st.tally.unknown
  {
    hide After, Accepted, Due, Kept, Next, Orderly, Process, SameBooks, OutcomeOf, ExpectedOf, WorldOk, CancelIn;
    var ev := IntentEvent(submission, x.attempt, Ok, x.ServerId(), n + 1);
    NewNumber(st, ev);
    CancelProcess(st.(tally := Note(st.tally, ev)), ev);
    Snoc(hs, x);
    CancelNext(After(hs), x);
    CancelBooks(st, After(hs), x);
    CancelFilesNothing(st.tally, hs, x);
    SameExpectations(st.tally, Step(st, ev, Everywhere).tally, hs + [x]);
  }

  lemma SameExpectations(t: Tally, t': Tally, hs: seq<Exchange>)
    requires (forall a :: ExpectedOf(t, a) == Due(hs, a)) && t'.expected == t.expected
    ensures forall a :: ExpectedOf(t', a) == Due(hs, a)
  {
    hide Due;
    forall a ensures ExpectedOf(t', a) == Due(hs, a) {
      assert ExpectedOf(t, a) == Due(hs, a);
    }
  }

  // ----- fills -----

  /** Records of fills of one order, numbered upwards from beyond `n` and not beyond `m`. */
  ghost predicate FillsUnder(es: seq<Event>, agg: string, n: nat, m: nat) {
    && StrictlyAscending(es)
    && forall e :: e in es ==> !e.endOfRun && e.outcome.Ok? && e.action.Fill? && e.aggressorOrderId == agg && n < e.seqNo <= m
  }

  /** Nothing but observations differs. */
  ghost predicate SameButObserved(st: State, st': State) {
    && st'.books == st.books
    && st'.tally == st.tally.(seen := st'.tally.seen, maxSeq := st'.tally.maxSeq, observed := st'.tally.observed)
  }

  lemma FillArrives(st: State, w: World, e: Event)
    requires Kept(st.tally) && st.tally.maxSeq < e.seqNo && st.tally.serverToBot == w.owner
    requires !e.endOfRun && e.outcome.Ok? && e.action.Fill?
    ensures var st' := Step(st, e, Everywhere);
      && SameButObserved(st, st') && Kept(st'.tally) && st'.tally.maxSeq == e.seqNo
      && forall a :: ObservedOf(st'.tally, a)
           == ObservedOf(st.tally, a) + (if a != "" && a == e.aggressorOrderId then [Reading(w, e)] else [])
  {
    hide Kept, Process, NoteFill, ObservedOf;
    NewNumber(st, e);
    var st0 := st.(tally := Note(st.tally, e));
    ProcessKeeps(st0, e, Everywhere);
    FillProcess(st0, e);
    FillNoted(st0.tally, w, e);
    forall a ensures ObservedOf(Step(st, e, Everywhere).tally, a)
      == ObservedOf(st.tally, a) + (if a != "" && a == e.aggressorOrderId then [Reading(w, e)] else [])
    {
      SameObserved(st.tally, st0.tally, a);
    }
  }

  lemma FillProcess(st: State, e: Event)
    requires !e.endOfRun && e.outcome.Ok? && e.action.Fill?
    ensures Process(st, e, Everywhere) == st.(tally := NoteFill(st.tally, e))
  {
    hide NoteFill;
  }

  lemma FillNoted(t: Tally, w: World, e: Event)
    requires t.serverToBot == w.owner
    ensures var t' := NoteFill(t, e);
      && t' == t.(observed := t'.observed)
      && forall a :: ObservedOf(t', a)
           == ObservedOf(t, a) + (if a != "" && a == e.aggressorOrderId then [Reading(w, e)] else [])
  {
    forall a ensures ObservedOf(t, a) + [] == ObservedOf(t, a) {
    }
  }

  lemma FrontOfFills(es: seq<Event>, agg: string, n: nat, m: nat)
    requires FillsUnder(es, agg, n, m) && es != []
    ensures var front, e := es[..|es| - 1], es[|es| - 1];
      e in es && 0 < e.seqNo && FillsUnder(front, agg, n, e.seqNo - 1)
  {
    FrontIsOlder(es);
    var front, e := es[..|es| - 1], es[|es| - 1];
    forall x | x in front ensures x.seqNo <= e.seqNo - 1 {
      var i :| 0 <= i < |front| && front[i] == x;
      assert es[i].seqNo < es[|es| - 1].seqNo;
    }
  }

  lemma {:induction false} FillsArrive(st: State, w: World, es: seq<Event>, agg: string, n: nat, m: nat)
    requires Below(st.tally, n) && n <= m && st.tally.serverToBot == w.owner && FillsUnder(es, agg, n, m)
    ensures var st' := FoldOn(st, es);
      && SameButObserved(st, st') && Below(st'.tally, m)
      && forall a :: ObservedOf(st'.tally, a) == ObservedOf(st.tally, a) + (if a != "" && a == agg then Readings(w, es) else [])
  {
    hide Step, Kept, Reading, ObservedOf;
    if es == [] {
      forall a ensures ObservedOf(st.tally, a) + [] == ObservedOf(st.tally, a) {
      }
    } else {
      var front, e := es[..|es| - 1], es[|es| - 1];
      FrontOfFills(es, agg, n, m);
      if front == [] {
        FillsArrive(st, w, front, agg, n, n);
      } else {
        assert front[0] in front;
        FillsArrive(st, w, front, agg, n, e.seqNo - 1);
      }
      var st1 := FoldOn(st, front);
      FillArrives(st1, w, e);
      forall a ensures ObservedOf(FoldOn(st, es).tally, a)
        == ObservedOf(st.tally, a) + (if a != "" && a == agg then Readings(w, es) else [])
      {
        if a != "" && a == agg {
          assert ObservedOf(st.tally, a) + Readings(w, front) + [Reading(w, e)] == ObservedOf(st.tally, a) + Readings(w, es);
        } else {
          assert ObservedOf(st.tally, a) + [] + [] == ObservedOf(st.tally, a) + [];
        }
      }
    }
  }

  /** The received fills of one answer are such records. */
  lemma GotFillsUnder(submission: string, a: Attempt, serverId: nat, ts: seq<ParsedTrade>, n: nat, received: seq<Event>)
    ensures FillsUnder(Got(FillEvents(submission, a, serverId, ts, n + 1), received), RequestId(a.request), n, n + |ts|)
  {
    hide Got, FillEvents, RequestId;
    var fs := FillEvents(submission, a, serverId, ts, n + 1);
    FillsNumbered(submission, a, serverId, ts, n + 1);
    GotFacts(fs, received);
    forall e | e in Got(fs, received)
      ensures !e.endOfRun && e.outcome.Ok? && e.action.Fill? && e.aggressorOrderId == RequestId(a.request) && n < e.seqNo <= n + |ts|
    {
      var i :| 0 <= i < |fs| && fs[i] == e;
    }
  }

  // ----- one exchange after another -----

  ghost predicate Matches(st: State, submission: string, xs: seq<Exchange>, received: seq<Event>) {
    && Filed(st, Heard(submission, xs, received))
    && (forall a :: ObservedOf(st.tally, a) == Witnessed(submission, xs, received, a))
    && st.tally.attempts == OnRecord(submission, xs, received)
    && st.tally.unknown == UnknownOnRecord(submission, xs, received)
  }

  /** The state once the intent of the next exchange is in, if it arrived. */
  function WithIntent(st: State, submission: string, xs: seq<Exchange>, x: Exchange, received: seq<Event>): State {
    if IntentOf(submission, xs, x) in received then Step(st, IntentOf(submission, xs, x), Everywhere) else st
  }

  lemma IntentIs(submission: string, xs: seq<Exchange>, x: Exchange)
    ensures var ev := IntentOf(submission, xs, x);
      && !ev.endOfRun && ev.outcome == x.Result() && ev.seqNo == |RunLog(submission, Attempts(xs))| + 1
      && (x.Result().Ok? ==> ev == IntentEvent(submission, x.attempt, Ok, x.ServerId(), ev.seqNo))
  {
  }

  lemma IntentArrives(st: State, submission: string, xs: seq<Exchange>, x: Exchange, received: seq<Event>)
    requires var hs, n := Heard(submission, xs, received), |RunLog(submission, Attempts(xs))|;
      && Matches(st, submission, xs, received) && Below(st.tally, n)
      && Orderly(After(hs), x) && WorldOk(After(hs)) && After(hs).dirty == {}
    ensures var st' := WithIntent(st, submission, xs, x, received);
      && Filed(st', Heard(submission, xs + [x], received)) && st'.tally.observed == st.tally.observed
      && st'.tally.attempts == OnRecord(submission, xs + [x], received)
      && st'.tally.unknown == UnknownOnRecord(submission, xs + [x], received)
      && Below(st'.tally, |RunLog(submission, Attempts(xs))| + 1)
  {
    hide Filed, Step, Orderly, After, WorldOk, IntentOf, Heard, Witnessed, OnRecord, UnknownOnRecord, RunLog,
         OutcomeOf, Kept,
         ObservedOf;
    var hs, n := Heard(submission, xs, received), |RunLog(submission, Attempts(xs))|;
    HeardGrows(submission, xs, x, received, "");
    assert hs + [] == hs;
    IntentIs(submission, xs, x);
    var ev := IntentOf(submission, xs, x);
    if ev in received {
      NewNumberKept(st, ev, n);
      if !x.Result().Ok? {
        QuietArrives(st, hs, ev);
      } else if x.attempt.request.NewOrder? {
        OrderArrives(st, hs, x, submission, n);
      } else {
        CancelArrives(st, hs, x, submission, n);
      }
    }
  }

  lemma ExchangeArrives(st: State, submission: string, xs: seq<Exchange>, x: Exchange, received: seq<Event>)
    requires var hs, n := Heard(submission, xs, received), |RunLog(submission, Attempts(xs))|;
      && Matches(st, submission, xs, received) && Below(st.tally, n)
      && Orderly(After(hs), x) && WorldOk(After(hs)) && After(hs).dirty == {}
    ensures var n := |RunLog(submission, Attempts(xs))|;
      var st' := FoldOn(st, Got(AttemptLog(submission, x.attempt, n + 1), received));
      && Matches(st', submission, xs + [x], received)
      && Below(st'.tally, n + |AttemptLog(submission, x.attempt, n + 1)|)
  {
    hide Filed, Step, Orderly, After, WorldOk, IntentOf, Heard, Witnessed, OnRecord, UnknownOnRecord, RunLog,
         OutcomeOf, Kept,
         FoldOn, Got, AttemptLog, WithIntent, ObservedOf, Readings, FillEvents, TradesOf, ServerIdOf;
    var n := |RunLog(submission, Attempts(xs))|;
    var ev, fs := IntentOf(submission, xs, x), FillsOf(submission, xs, x);
    LogOf(submission, xs, x);
    GotConcat([ev], fs, received);
    GotOne(ev, received);
    IntentArrives(st, submission, xs, x, received);
    var st1 := WithIntent(st, submission, xs, x, received);
    FoldOnConcat(st, Got([ev], received), Got(fs, received));
    FoldWithIntent(st, submission, xs, x, received);
    AttemptNumbered(submission, x.attempt, n + 1);
    GotFillsUnder(submission, x.attempt, ServerIdOf(x.attempt.response), TradesOf(x.attempt.response), n + 1, received);
    var w := After(Heard(submission, xs + [x], received));
    FiledNames(st1, Heard(submission, xs + [x], received));
    var ts := TradesOf(x.attempt.response);
    FillsArrive(st1, w, Got(fs, received), RequestId(x.attempt.request), n + 1, n + 1 + |ts|);
    var st' := FoldOn(st1, Got(fs, received));
    StillFiled(st1, st', Heard(submission, xs + [x], received));
    forall a ensures ObservedOf(st'.tally, a) == Witnessed(submission, xs + [x], received, a) {
      HeardGrows(submission, xs, x, received, a);
      SameObserved(st.tally, st1.tally, a);
      assert Witnessed(submission, xs, received, a) + [] == Witnessed(submission, xs, received, a);
    }
  }

  lemma SameObserved(t: Tally, t': Tally, a: string)
    requires t'.observed == t.observed
    ensures ObservedOf(t', a) == ObservedOf(t, a)
  {
  }

  lemma LogOf(submission: string, xs: seq<Exchange>, x: Exchange)
    ensures AttemptLog(submission, x.attempt, |RunLog(submission, Attempts(xs))| + 1)
         == [IntentOf(submission, xs, x)] + FillsOf(submission, xs, x)
  {
    hide RunLog, IntentEvent, FillEvents;
  }

  lemma FoldWithIntent(st: State, submission: string, xs: seq<Exchange>, x: Exchange, received: seq<Event>)
    ensures FoldOn(st, Got([IntentOf(submission, xs, x)], received)) == WithIntent(st, submission, xs, x, received)
  {
    hide IntentOf, Step, Got;
    GotOne(IntentOf(submission, xs, x), received);
    FoldOnOne(st, IntentOf(submission, xs, x));
  }

  lemma FiledNames(st: State, hs: seq<Exchange>)
    requires Filed(st, hs)
    ensures st.tally.serverToBot == After(hs).owner
  {
    hide After, Accepted, Due, SameBooks;
  }

  lemma StillFiled(st: State, st': State, hs: seq<Exchange>)
    requires Filed(st, hs) && SameButObserved(st, st')
    ensures Filed(st', hs)
    ensures st'.tally.attempts == st.tally.attempts && st'.tally.unknown == st.tally.unknown
  {
    hide After, Accepted, Due, SameBooks, NamesAgree;
    SameExpectations(st.tally, st'.tally, hs);
    assert st'.tally.serverToBot == st.tally.serverToBot && st'.tally.aggTicker == st.tally.aggTicker;
    SameNames(st.tally, st'.tally, After(hs));
  }

  lemma SameNames(t: Tally, t': Tally, w: World)
    requires NamesAgree(t, w) && t'.serverToBot == t.serverToBot && t'.aggTicker == t.aggTicker
    ensures NamesAgree(t', w)
  {
  }

  /** Replaying the received part of a run files, witnesses and counts what arrived of it. */
  lemma {:induction false} RunArrives(submission: string, xs: seq<Exchange>, received: seq<Event>)
    requires OrderlyRun(xs)
    ensures var log := RunLog(submission, Attempts(xs));
      var st := Fold(Got(log, received));
      Matches(st, submission, xs, received) && Below(st.tally, |log|)
  {
    hide Matches, Below, OrderlyRun, Orderly, After, Heard, Step, AttemptLog, WorldOk, FoldOn, Got, Fold;
    if xs == [] {
      NothingArrives(submission, received);
    } else {
      var front, x := xs[..|xs| - 1], xs[|xs| - 1];
      LastOfOrderly(xs);
      RunArrives(submission, front, received);
      var hs := Heard(submission, front, received);
      HeardIsOrderly(submission, front, received);
      StillOrderly(After(hs), After(front), x);
      WorldStaysOk(hs);
      HeardIsAccepted(submission, front, received);
      NothingLostIsClean(hs);
      var log := RunLog(submission, Attempts(front));
      AttemptsSnoc(front, x);
      RunLogSnoc(submission, Attempts(front), x.attempt);
      GotConcat(log, AttemptLog(submission, x.attempt, |log| + 1), received);
      FoldConcat(Got(log, received), Got(AttemptLog(submission, x.attempt, |log| + 1), received));
      ExchangeArrives(Fold(Got(log, received)), submission, front, x, received);
    }
  }

  lemma NothingArrives(submission: string, received: seq<Event>)
    ensures Matches(State(map[], START), submission, [], received) && Below(START, 0)
    ensures Fold(Got(RunLog(submission, Attempts([])), received)) == State(map[], START)
    ensures RunLog(submission, Attempts([])) == []
  {
  }

  // ----- orphans and holes -----

  /** The orders the received fills name. */
  function NamedByFills(es: seq<Event>): set<string> {
    set e | e in es && !e.endOfRun && e.outcome.Ok? && e.action.Fill? && e.aggressorOrderId != "" :: e.aggressorOrderId
  }

  lemma NamedSnoc(es: seq<Event>, e: Event)
    ensures NamedByFills(es + [e]) == NamedByFills(es) + NamedByFills([e])
  {
    assert forall x :: x in es + [e] <==> x in es || x in [e];
  }

  lemma NotesObserveNothing(t: Tally, ev: Event, trades: seq<Trade>)
    ensures Note(t, ev).observed == NoteUnknown(t, ev).observed == NoteAttempt(t).observed == t.observed
    ensures NoteIntent(t, ev, trades).observed == t.observed
    ensures NoteFill(t, ev).observed.Keys == t.observed.Keys + (if ev.aggressorOrderId == "" then {} else {ev.aggressorOrderId})
  {
    hide MarkTaint, FillOf;
  }

  lemma ProcessNames(st: State, ev: Event)
    ensures Process(st, ev, Everywhere).tally.observed.Keys == st.tally.observed.Keys + NamedByFills([ev])
  {
    hide Submit, SubmitTrades, CancelIn, NoteUnknown, NoteAttempt, NoteIntent, NoteFill, NamedByFills;
    var b := BookFor(st.books, ev.ticker);
    var trades := if ev.action.Intent? then SubmitTrades(b, ev.orderId, ev.action.side, ev.orderType, ev.price, ev.volume) else [];
    NotesObserveNothing(st.tally, ev, trades);
    NamedByOne(ev);
  }

  lemma NamedByOne(ev: Event)
    ensures NamedByFills([ev])
         == if !ev.endOfRun && ev.outcome.Ok? && ev.action.Fill? && ev.aggressorOrderId != "" then {ev.aggressorOrderId} else {}
  {
    assert ev in [ev] && forall e :: e in [ev] ==> e == ev;
  }

  lemma StepNames(st: State, ev: Event)
    requires !Duplicate(st.tally, ev)
    ensures Step(st, ev, Everywhere).tally.observed.Keys == st.tally.observed.Keys + NamedByFills([ev])
  {
    hide Process, Note, NamedByFills;
    NotesObserveNothing(st.tally, ev, []);
    ProcessNames(st.(tally := Note(st.tally, ev)), ev);
  }

  lemma {:induction false} FoldNames(es: seq<Event>)
    requires StrictlyAscending(es)
    ensures Fold(es).tally.observed.Keys == NamedByFills(es)
  {
    hide Step, NamedByFills;
    if es == [] {
      NothingNamed();
    } else {
      var front, ev := es[..|es| - 1], es[|es| - 1];
      FrontIsOlder(es);
      FoldNames(front);
      FoldKeeps(front);
      NotSeenBefore(es);
      StepNames(Fold(front), ev);
      NamedSnoc(front, ev);
    }
  }

  lemma NothingNamed()
    ensures NamedByFills([]) == {}
  {
  }

  lemma NotSeenBefore(es: seq<Event>)
    requires StrictlyAscending(es) && es != []
    ensures !Duplicate(Fold(es[..|es| - 1]).tally, es[|es| - 1])
  {
    hide Fold;
    var front, ev := es[..|es| - 1], es[|es| - 1];
    FoldKeeps(front);
    forall x | x in front ensures x.seqNo < ev.seqNo {
      var i :| 0 <= i < |front| && front[i] == x;
      assert es[i].seqNo < es[|es| - 1].seqNo;
    }
  }

  lemma {:induction false} AsManyNumbers(es: seq<Event>)
    requires StrictlyAscending(es) && PositiveSeqs(es)
    ensures |SeqNos(es)| == |es|
  {
    hide SeqNos;
    if es == [] {
      NoNumbers();
    } else {
      var front, ev := es[..|es| - 1], es[|es| - 1];
      FrontIsOlder(es);
      assert ev in es && forall x :: x in front ==> x in es;
      AsManyNumbers(front);
      SeqNosSnoc(front, ev);
      NewToFront(es);
    }
  }

  lemma NoNumbers()
    ensures SeqNos([]) == {}
  {
  }

  lemma NewToFront(es: seq<Event>)
    requires StrictlyAscending(es) && es != []
    ensures es[|es| - 1].seqNo !in SeqNos(es[..|es| - 1])
  {
    var front, ev := es[..|es| - 1], es[|es| - 1];
    forall x | x in front ensures x.seqNo < ev.seqNo {
      var i :| 0 <= i < |front| && front[i] == x;
      assert es[i].seqNo < es[|es| - 1].seqNo;
    }
  }

  /** With the end marker in, what is missing of the stream is the gap. */
  lemma MissingIsGap(submission: string, attempts: seq<Attempt>, endAt: int, received: seq<Event>)
    requires PartOf(received, Stream(submission, attempts, endAt)) && HasEnd(received)
    ensures var s := Stream(submission, attempts, endAt);
      Gap(Fold(Got(s, received)).tally) == |s| - |Got(s, received)|
  {
    hide Stream, Fold, Got;
    var s := Stream(submission, attempts, endAt);
    var g := Got(s, received);
    StreamIsStrict(submission, attempts, endAt);
    StreamNumbered(submission, attempts, endAt);
    GotFacts(s, received);
    AsManyNumbers(g);
    FoldKeeps(g);
    EndIsLast(submission, attempts, endAt, received);
    assert |s| in SeqNos(g);
    forall k | k in SeqNos(g) ensures k <= |s| {
      var e :| e in g && e.seqNo == k;
      var i :| 0 <= i < |s| && s[i] == e;
    }
  }

  lemma EndIsLast(submission: string, attempts: seq<Attempt>, endAt: int, received: seq<Event>)
    requires PartOf(received, Stream(submission, attempts, endAt)) && HasEnd(received)
    ensures var s := Stream(submission, attempts, endAt); s != [] && s[|s| - 1] in received && s[|s| - 1].seqNo == |s|
  {
    LogHasNoEnd(submission, attempts);
    var e :| e in received && e.endOfRun;
  }

  // ----- what a pass vouches for -----

  /** Every received fill is of an order whose acceptance is on record. */
  predicate NoneOrphaned(received: seq<Event>, hs: seq<Exchange>) {
    NamedByFills(received) <= (set a | a in Accepted(hs))
  }

  /** Every order on record was reported as the golden rules match it on the book of the requests on record. */
  ghost predicate AllChecked(submission: string, xs: seq<Exchange>, received: seq<Event>) {
    var hs := Heard(submission, xs, received);
    forall a :: a in Accepted(hs) ==>
      AllKnown(Witnessed(submission, xs, received, a)) && Agrees(Due(hs, a), Witnessed(submission, xs, received, a))
  }

  lemma CheckedIsCompared(t: Tally, submission: string, xs: seq<Exchange>, received: seq<Event>)
    requires var hs := Heard(submission, xs, received);
      && t.aggressors == Accepted(hs) && (forall a :: ExpectedOf(t, a) == Due(hs, a))
      && forall a :: ObservedOf(t, a) == Witnessed(submission, xs, received, a)
    ensures (forall k :: 0 <= k < |t.aggressors| ==> DiffIs(t, k, Correct)) <==> AllChecked(submission, xs, received)
  {
    hide Agrees, AllKnown, Accepted, Due, Witnessed, Heard;
    if AllChecked(submission, xs, received) {
      forall k | 0 <= k < |t.aggressors| ensures DiffIs(t, k, Correct) {
        assert t.aggressors[k] in Accepted(Heard(submission, xs, received));
      }
    }
    if forall k :: 0 <= k < |t.aggressors| ==> DiffIs(t, k, Correct) {
      forall a | a in Accepted(Heard(submission, xs, received))
        ensures AllKnown(Witnessed(submission, xs, received, a))
          && Agrees(Due(Heard(submission, xs, received), a), Witnessed(submission, xs, received, a))
      {
        var k :| 0 <= k < |t.aggressors| && t.aggressors[k] == a;
        assert DiffIs(t, k, Correct);
      }
    }
  }

  lemma OrphansAre(t: Tally, received: seq<Event>, hs: seq<Exchange>)
    requires Kept(t) && t.aggressors == Accepted(hs) && t.observed.Keys == NamedByFills(received)
    ensures Orphans(t) == {} <==> NoneOrphaned(received, hs)
  {
    hide Accepted, NamedByFills;
    var names := set a | a in Accepted(hs);
    assert t.expected.Keys == names;
    if Orphans(t) == {} {
      forall a | a in t.observed.Keys ensures a in names {
        assert a !in t.observed.Keys - t.expected.Keys;
      }
    }
  }

  lemma SameNamed(a: seq<Event>, b: seq<Event>)
    requires SameEvents(a, b)
    ensures NamedByFills(a) == NamedByFills(b)
  {
  }

  /** The whole tally of the received part, end marker included. */
  lemma PartTally(submission: string, xs: seq<Exchange>, endAt: int, received: seq<Event>)
    requires OrderlyRun(xs) && PartOf(received, Stream(submission, Attempts(xs), endAt))
    ensures var st := Fold(Got(Stream(submission, Attempts(xs), endAt), received));
      && Matches(st, submission, xs, received) && Kept(st.tally) && st.tally.observed.Keys == NamedByFills(received)
  {
    hide Fold, Got, OrderlyRun, RunLog, Step, Filed, ObservedOf, FoldOn, NamedByFills, Heard, Witnessed, OnRecord,
         UnknownOnRecord;
    var log := RunLog(submission, Attempts(xs));
    var s := Stream(submission, Attempts(xs), endAt);
    var end := EndEvent(submission, endAt, |log| + 1);
    RunArrives(submission, xs, received);
    PartFolds(submission, Attempts(xs), endAt, received);
    FoldNames(Got(s, received));
    FoldKeeps(Got(s, received));
    SameNamed(Got(s, received), received);
    GotConcat(log, [end], received);
    GotOne(end, received);
    FoldConcat(Got(log, received), Got([end], received));
    var st := Fold(Got(log, received));
    if end in received {
      FoldOnOne(st, end);
      QuietArrives(st, Heard(submission, xs, received), end);
      forall a ensures ObservedOf(Step(st, end, Everywhere).tally, a) == ObservedOf(st.tally, a) {
        SameObserved(st.tally, Step(st, end, Everywhere).tally, a);
      }
    } else {
      FoldOnNothing(st);
    }
  }

  lemma FoldOnNothing(st: State)
    ensures FoldOn(st, []) == st
  {
  }

  /**
   Whatever part of a run's stream arrives, and whatever the contestant reported, it is correct exactly when the end
   marker is in, less than a twentieth as many records are missing or of unknown outcome as attempts are on record, every
   received fill is of an order on record, and every order on record was reported as the golden rules match it on the book
   of the requests on record.
   */
  lemma PartIsCorrectIff(submission: string, xs: seq<Exchange>, endAt: int, received: seq<Event>)
    requires OrderlyRun(xs) && PartOf(received, Stream(submission, Attempts(xs), endAt))
    ensures var s := Stream(submission, Attempts(xs), endAt);
      var missing := |s| - |Got(s, received)|;
      var recorded := OnRecord(submission, xs, received);
      Finalize(received) == Correct <==>
        && HasEnd(received)
        && ((recorded == 0 && missing == 0) || 20 * (UnknownOnRecord(submission, xs, received) + missing) < recorded)
        && NoneOrphaned(received, Heard(submission, xs, received))
        && AllChecked(submission, xs, received)
  {
    hide VerdictOf, Fold, Got, Stream, SortBySeq, OrderlyRun, NoneOrphaned, AllChecked, Gap, Orphans, Heard, Witnessed,
         NamedByFills, OnRecord, UnknownOnRecord, SameBooks, NamesAgree, HasEnd, PartOf;
    if HasEnd(received) {
      PartFolds(submission, Attempts(xs), endAt, received);
      PartTally(submission, xs, endAt, received);
      MissingIsGap(submission, Attempts(xs), endAt, received);
      var t := Fold(Got(Stream(submission, Attempts(xs), endAt), received)).tally;
      CorrectIff(t);
      CheckedIsCompared(t, submission, xs, received);
      OrphansAre(t, received, Heard(submission, xs, received));
    }
  }

  // ----- how much a pass leaves unseen -----

  lemma {:induction false} UnrecordedIsMissing(submission: string, xs: seq<Exchange>, received: seq<Event>)
    ensures var log := RunLog(submission, Attempts(xs));
      |xs| - OnRecord(submission, xs, received) <= |log| - |Got(log, received)|
  {
    hide AttemptLog, Got, IntentOf, RunLog, Attempts;
    if xs == [] {
      NothingArrives(submission, received);
      GotIsShorter([], received);
    } else {
      var front, x := xs[..|xs| - 1], xs[|xs| - 1];
      assert front + [x] == xs;
      UnrecordedIsMissing(submission, front, received);
      var log := RunLog(submission, Attempts(front));
      AttemptsSnoc(front, x);
      RunLogSnoc(submission, Attempts(front), x.attempt);
      LogOf(submission, front, x);
      var ev, fs := IntentOf(submission, front, x), FillsOf(submission, front, x);
      GotConcat(log, [ev] + fs, received);
      GotConcat([ev], fs, received);
      GotOne(ev, received);
      GotIsShorter(fs, received);
    }
  }

  lemma {:induction false} GotIsShorter(es: seq<Event>, received: seq<Event>)
    ensures |Got(es, received)| <= |es|
  {
    if es != [] {
      GotIsShorter(es[..|es| - 1], received);
    }
  }

  /**
   Nothing passes unchecked: in a run that passes every order on record was checked, and less than a twentieth as many
   attempts left no record or an unknown outcome as are on record.
   */
  lemma PassMeansChecked(submission: string, xs: seq<Exchange>, endAt: int, received: seq<Event>)
    requires OrderlyRun(xs) && PartOf(received, Stream(submission, Attempts(xs), endAt)) && Finalize(received) == Correct
    ensures AllChecked(submission, xs, received) && NoneOrphaned(received, Heard(submission, xs, received))
    ensures var unseen := |xs| - OnRecord(submission, xs, received) + UnknownOnRecord(submission, xs, received);
      xs == [] || 20 * unseen < OnRecord(submission, xs, received)
  {
    hide Finalize, Got, Stream, OrderlyRun, AllChecked, NoneOrphaned, Heard, PartOf, HasEnd, RunLog, OnRecord,
         UnknownOnRecord;
    PartIsCorrectIff(submission, xs, endAt, received);
    var s := Stream(submission, Attempts(xs), endAt);
    UnrecordedIsMissing(submission, xs, received);
    StreamMisses(submission, Attempts(xs), endAt, received);
    NoAttemptNoUnknown(submission, xs, received);
  }

  lemma StreamMisses(submission: string, attempts: seq<Attempt>, endAt: int, received: seq<Event>)
    ensures var log, s := RunLog(submission, attempts), Stream(submission, attempts, endAt);
      |log| - |Got(log, received)| <= |s| - |Got(s, received)|
  {
    hide RunLog, Got;
    var log := RunLog(submission, attempts);
    var end := EndEvent(submission, endAt, |log| + 1);
    GotConcat(log, [end], received);
    GotOne(end, received);
  }

  lemma {:induction false} NoAttemptNoUnknown(submission: string, xs: seq<Exchange>, received: seq<Event>)
    ensures UnknownOnRecord(submission, xs, received) <= OnRecord(submission, xs, received) <= |xs|
  {
    hide IntentOf, OutcomeOf;
    if xs != [] {
      NoAttemptNoUnknown(submission, xs[..|xs| - 1], received);
    }
  }
}
