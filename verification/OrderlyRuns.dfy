/**
 What a complete run's verdict says about a contestant that may report anything: its answers are compared with the
 golden trades on the book its accepted requests lead to, order by order, and nothing else decides.
 */
module OrderlyRuns {
  import opened MarketTypes
  import opened RankedBook
  import opened Differential
  import opened Writer
  import opened ReplaySpec
  import opened ReplayLaws
  import opened VerdictLaws
  import opened Contestant
  import opened Soundness
  import opened SoundnessTheorems
  import opened HiddenCancel
  import opened StreamComplete

  // ----- what a run owes and what it reports -----

  /** The accepted orders in the order they were sent. */
  function Accepted(xs: seq<Exchange>): seq<string> {
    if xs == [] then []
    else
      var x := xs[|xs| - 1];
      Accepted(xs[..|xs| - 1]) + (if x.attempt.request.NewOrder? && x.Result().Ok? then [x.attempt.request.orderId] else [])
  }

  /** The golden trades of an accepted order on the book of the requests accepted before it. */
  function Due(xs: seq<Exchange>, a: string): seq<Trade> {
    if xs == [] then []
    else
      var front, x := xs[..|xs| - 1], xs[|xs| - 1];
      if x.attempt.request.NewOrder? && x.Result().Ok? && x.attempt.request.orderId == a then
        TrueTrades(After(front), x.attempt.request)
      else Due(front, a)
  }

  /** Everything reported under an id, in its own answer or with a cancel of it, makers resolved when it was reported. */
  function Reported(xs: seq<Exchange>, a: string): seq<ObservedFill> {
    if xs == [] then []
    else
      var front, x := xs[..|xs| - 1], xs[|xs| - 1];
      if a != "" && RequestId(x.attempt.request) == a then
        Reported(front, a) + ResolveAll(After(xs), x.ServerId(), TradesOf(x.attempt.response))
      else Reported(front, a)
  }

  lemma Snoc(xs: seq<Exchange>, x: Exchange)
    ensures var all := xs + [x]; all[..|all| - 1] == xs && all[|all| - 1] == x
    ensures After(xs + [x]) == Next(After(xs), x)
  {
    hide Next;
    assert (xs + [x])[..|xs|] == xs;
  }

  lemma RunsGrow(xs: seq<Exchange>, x: Exchange, a: string)
    ensures Accepted(xs + [x])
         == Accepted(xs) + (if x.attempt.request.NewOrder? && x.Result().Ok? then [x.attempt.request.orderId] else [])
    ensures Due(xs + [x], a)
         == if x.attempt.request.NewOrder? && x.Result().Ok? && x.attempt.request.orderId == a
            then TrueTrades(After(xs), x.attempt.request) else Due(xs, a)
    ensures Reported(xs + [x], a)
         == if a != "" && RequestId(x.attempt.request) == a
            then Reported(xs, a) + ResolveAll(After(xs + [x]), x.ServerId(), TradesOf(x.attempt.response)) else Reported(xs, a)
  {
    hide After, TrueTrades, ResolveAll, RequestId, TradesOf, OutcomeOf;
    assert (xs + [x])[..|xs|] == xs;
  }

  lemma NothingResolves(w: World, serverId: nat)
    ensures ResolveAll(w, serverId, []) == []
  {
  }

  // ----- the checker's files -----

  ghost predicate SameBooks(books: map<string, Book>, books': map<string, Book>) {
    forall t :: BookFor(books, t) == BookFor(books', t)
  }

  /** What the checker has on file about orders is what the run owes and reports. */
  ghost predicate FilesAgree(t: Tally, xs: seq<Exchange>) {
    && t.aggressors == Accepted(xs)
    && (forall a :: ExpectedOf(t, a) == Due(xs, a))
    && (forall a :: ObservedOf(t, a) == Reported(xs, a))
  }

  ghost predicate NamesAgree(t: Tally, w: World) {
    t.serverToBot == w.owner && t.aggTicker == w.home
  }

  ghost predicate InSequence(t: Tally, n: nat) {
    && (forall a :: a in t.aggSeq ==> t.aggSeq[a] <= n)
    && (forall j, k :: 0 <= j < k < |t.aggressors| ==> SeqOf(t, t.aggressors[j]) < SeqOf(t, t.aggressors[k]))
  }

  ghost predicate Tracks(st: State, xs: seq<Exchange>, n: nat) {
    && Kept(st.tally) && SeenTo(st.tally, n)
    && SameBooks(st.books, After(xs).books)
    && NamesAgree(st.tally, After(xs)) && FilesAgree(st.tally, xs) && InSequence(st.tally, n)
    && st.tally.firstUnverifiable == map[] && st.tally.unknown == 0
  }

  // ----- a rejected request -----

  /** An answer without trades to anything but an accepted order leaves the files as they are. */
  lemma QuietFiles(t: Tally, t': Tally, xs: seq<Exchange>, x: Exchange)
    requires FilesAgree(t, xs) && SameOrders(t, t')
    requires TradesOf(x.attempt.response) == [] && (x.attempt.request.CancelRequest? || !x.Result().Ok?)
    ensures FilesAgree(t', xs + [x])
  {
    hide Accepted, Due, Reported, After, ResolveAll, OutcomeOf, TradesOf;
    NothingResolves(After(xs + [x]), x.ServerId());
    forall a ensures Accepted(xs + [x]) == Accepted(xs) && Due(xs + [x], a) == Due(xs, a) && Reported(xs + [x], a) == Reported(xs, a) {
      RunsGrow(xs, x, a);
      assert Reported(xs, a) + [] == Reported(xs, a);
    }
    RunsGrow(xs, x, "");
  }

  lemma RejectedNext(w: World, x: Exchange)
    requires Orderly(w, x) && x.Result().Rejected?
    ensures Next(w, x).books == w.books && Next(w, x).owner == w.owner && Next(w, x).home == w.home
  {
  }

  lemma RejectedTracks(st: State, xs: seq<Exchange>, x: Exchange, submission: string, n: nat)
    requires Tracks(st, xs, n) && Orderly(After(xs), x) && x.Result().Rejected?
    ensures Tracks(FoldOn(st, AttemptLog(submission, x.attempt, n + 1)), xs + [x], n + 1)
  {
    hide Step, UpTo, Kept, IntentEvent, After, Next, Orderly, FilesAgree;
    var ev := IntentEvent(submission, x.attempt, Rejected, 0, n + 1);
    OnlyIntent(st, submission, x.attempt, n);
    RejectedStep(st, x.attempt, submission, n);
    StepKeeps(st, ev, Everywhere);
    Snoc(xs, x);
    RejectedNext(After(xs), x);
    QuietFiles(st.tally, Step(st, ev, Everywhere).tally, xs, x);
  }

  // ----- reading fills -----

  /** With the same names on file a fill reads as the contestant meant it. */
  lemma {:induction false} ReadsAlike(t: Tally, w: World, serverId: nat, ts: seq<ParsedTrade>)
    requires t.serverToBot == w.owner
    ensures Read(t, serverId, ts) == ResolveAll(w, serverId, ts)
  {
    hide MatchedId;
    if ts != [] {
      ReadsAlike(t, w, serverId, ts[..|ts| - 1]);
    }
  }

  // ----- an accepted cancel -----

  lemma CancelFiles(t: Tally, xs: seq<Exchange>, x: Exchange, n: nat)
    requires FilesAgree(t, xs) && x.Result().Ok? && x.attempt.request.CancelRequest?
    requires t.serverToBot == After(xs + [x]).owner
    ensures FilesAgree(WithFills(t, x.attempt.request.targetText, x.ServerId(), TradesOf(x.attempt.response), n), xs + [x])
  {
    hide Accepted, Due, Reported, After, UpTo, ResolveAll, Read, TradesOf, OutcomeOf;
    var ts := TradesOf(x.attempt.response);
    ReadsAlike(t, After(xs + [x]), x.ServerId(), ts);
    RunsGrow(xs, x, "");
    if ts == [] {
      QuietFiles(t, t, xs, x);
    } else {
      var t' := WithFills(t, x.attempt.request.targetText, x.ServerId(), ts, n);
      forall a
        ensures ObservedOf(t', a) == Reported(xs + [x], a)
        ensures ExpectedOf(t', a) == Due(xs + [x], a)
      {
        RunsGrow(xs, x, a);
      }
    }
  }

  lemma CancelBooks(st: State, w: World, x: Exchange)
    requires WorldOk(w) && Orderly(w, x) && w.dirty == {} && x.Result().Ok? && x.attempt.request.CancelRequest?
    requires SameBooks(st.books, w.books) && st.tally.serverToBot == w.owner
    ensures SameBooks(CancelledBooks(st, x.attempt.request.targetId), Next(w, x).books)
  {
    hide WorldOk, Orderly, Next, CancelIn;
    var st0 := State(st.books, START.(serverToBot := w.owner));
    forall t ensures BookFor(CancelledBooks(st, x.attempt.request.targetId), t) == BookFor(Next(w, x).books, t) {
      CancelOnTicker(st0, w, x, t);
    }
  }

  lemma CancelNext(w: World, x: Exchange)
    requires x.attempt.request.CancelRequest?
    ensures Next(w, x).owner == w.owner && Next(w, x).home == w.home
  {
    hide CancelOrder;
  }

  lemma CancelFolds(st: State, x: Exchange, submission: string, n: nat)
    requires SeenTo(st.tally, n) && x.Result().Ok? && x.attempt.request.CancelRequest?
    ensures var t1 := st.tally.(seen := UpTo(n + 1), maxSeq := n + 1, attempts := st.tally.attempts + 1);
      FoldOn(st, AttemptLog(submission, x.attempt, n + 1))
        == State(CancelledBooks(st, x.attempt.request.targetId),
                 WithFills(t1, x.attempt.request.targetText, x.ServerId(), TradesOf(x.attempt.response), n + 1))
  {
    hide UpTo, FillEvent, WithFills, Step, FoldOn, AttemptLog, CancelledBooks, IntentEvent, FillEvents;
    var ts := TradesOf(x.attempt.response);
    var ev := IntentEvent(submission, x.attempt, Ok, x.ServerId(), n + 1);
    AttemptSplits(submission, x, n);
    FoldOnConcat(st, [ev], FillEvents(submission, x.attempt, x.ServerId(), ts, n + 2));
    FoldOnOne(st, ev);
    CancelStep(st, x.attempt, submission, x.ServerId(), n);
    FillsFold(Step(st, ev, Everywhere), submission, x.attempt, x.ServerId(), ts, n + 1);
  }

  lemma FillsKeep(t: Tally, agg: string, serverId: nat, ts: seq<ParsedTrade>, n: nat)
    requires SeenTo(t, n)
    ensures var t' := WithFills(t, agg, serverId, ts, n);
      && SeenTo(t', n + |ts|) && t'.serverToBot == t.serverToBot && t'.aggTicker == t.aggTicker && t'.aggSeq == t.aggSeq
      && t'.aggressors == t.aggressors && t'.firstUnverifiable == t.firstUnverifiable && t'.unknown == t.unknown
  {
  }

  lemma SequenceLater(t: Tally, t': Tally, n: nat, n': nat)
    requires InSequence(t, n) && n <= n' && t'.aggSeq == t.aggSeq && t'.aggressors == t.aggressors
    ensures InSequence(t', n')
  {
  }

  lemma CancelTracks(st: State, xs: seq<Exchange>, x: Exchange, submission: string, n: nat)
    requires Tracks(st, xs, n) && WorldOk(After(xs)) && After(xs).dirty == {} && Orderly(After(xs), x)
    requires x.Result().Ok? && x.attempt.request.CancelRequest?
    ensures var log := AttemptLog(submission, x.attempt, n + 1);
      Tracks(FoldOn(st, log), xs + [x], n + |log|)
  {
    hide UpTo, Kept, After, Next, Orderly, FilesAgree, WorldOk, AttemptLog, FoldOn, WithFills, CancelledBooks,
         SameBooks, InSequence, SeenTo;
    var log := AttemptLog(submission, x.attempt, n + 1);
    var w := After(xs);
    var ts := TradesOf(x.attempt.response);
    CancelFolds(st, x, submission, n);
    FoldOnKeeps(st, log);
    AttemptNumbered(submission, x.attempt, n + 1);
    var t1 := st.tally.(seen := UpTo(n + 1), maxSeq := n + 1, attempts := st.tally.attempts + 1);
    FreshSeen(t1, n + 1);
    FillsKeep(t1, x.attempt.request.targetText, x.ServerId(), ts, n + 1);
    Snoc(xs, x);
    CancelNext(w, x);
    CancelBooks(st, w, x);
    SameFiles(st.tally, t1, xs);
    CancelFiles(t1, xs, x, n + 1);
    SequenceLater(st.tally, WithFills(t1, x.attempt.request.targetText, x.ServerId(), ts, n + 1), n, n + |log|);
  }

  lemma FreshSeen(t: Tally, n: nat)
    requires t.seen == UpTo(n) && t.maxSeq == n
    ensures SeenTo(t, n)
  {
  }

  lemma SameFiles(t: Tally, t': Tally, xs: seq<Exchange>)
    requires FilesAgree(t, xs) && SameOrders(t, t')
    ensures FilesAgree(t', xs)
  {
  }

  // ----- an accepted order -----

  lemma OrderFiles(t: Tally, xs: seq<Exchange>, x: Exchange, t': Tally, trades: seq<Trade>, n: nat)
    requires FilesAgree(t, xs) && x.Result().Ok? && x.attempt.request.NewOrder? && x.attempt.request.orderId != ""
    requires OrderRecorded(t, t', x, trades, n) && trades == TrueTrades(After(xs), x.attempt.request)
    requires ObservedOf(t', x.attempt.request.orderId)
          == ObservedOf(t, x.attempt.request.orderId) + ResolveAll(After(xs + [x]), x.ServerId(), TradesOf(x.attempt.response))
    ensures FilesAgree(t', xs + [x])
  {
    hide Accepted, Due, Reported, After, TrueTrades, ResolveAll, TradesOf, OutcomeOf;
    RunsGrow(xs, x, "");
    forall a
      ensures ObservedOf(t', a) == Reported(xs + [x], a)
      ensures ExpectedOf(t', a) == Due(xs + [x], a)
    {
      RunsGrow(xs, x, a);
    }
  }

  lemma OrderNext(w: World, x: Exchange)
    requires Orderly(w, x) && x.Result().Ok? && x.attempt.request.NewOrder?
    ensures var r := x.attempt.request;
      && Next(w, x).owner == w.owner[x.ServerId() := r.orderId] && Next(w, x).home == w.home[r.orderId := r.ticker]
      && Next(w, x).books == w.books[r.ticker := Submit(BookFor(w.books, r.ticker), r.orderId, r.side, r.otype, r.price, r.quantity)]
      && r.orderId !in w.used && r.orderId != "" && x.ServerId() != 0
  {
    hide Submit;
  }

  lemma OrderSequence(t: Tally, t': Tally, x: Exchange, trades: seq<Trade>, n: nat, n': nat)
    requires Kept(t) && InSequence(t, n) && n < n' && x.attempt.request.NewOrder? && OrderRecorded(t, t', x, trades, n)
    requires x.attempt.request.orderId !in t.aggTicker
    ensures InSequence(t', n')
  {
    var id := x.attempt.request.orderId;
    forall j, k | 0 <= j < k < |t'.aggressors| ensures SeqOf(t', t'.aggressors[j]) < SeqOf(t', t'.aggressors[k]) {
      assert t'.aggressors[j] == t.aggressors[j] && t.aggressors[j] in t.aggressors;
      if k < |t.aggressors| {
        assert t'.aggressors[k] == t.aggressors[k] && t.aggressors[k] in t.aggressors;
      }
    }
  }

  lemma PlacedBooks(books: map<string, Book>, books': map<string, Book>, ticker: string, b: Book)
    requires SameBooks(books, books')
    ensures SameBooks(books[ticker := b], books'[ticker := b])
  {
    var placed, placed' := books[ticker := b], books'[ticker := b];
    forall t ensures BookFor(placed, t) == BookFor(placed', t) {
      assert BookFor(books, t) == BookFor(books', t);
    }
  }

  lemma OrderObserved(st: State, xs: seq<Exchange>, x: Exchange, submission: string, n: nat)
    requires st.tally.serverToBot == After(xs).owner && Orderly(After(xs), x) && x.Result().Ok? && x.attempt.request.NewOrder?
    ensures var r := x.attempt.request;
      var t' := AfterOrder(st, x, submission, n);
      && OrderRecorded(st.tally, t', x, SubmitTrades(BookFor(st.books, r.ticker), r.orderId, r.side, r.otype, r.price, r.quantity), n)
      && ObservedOf(t', r.orderId)
         == ObservedOf(st.tally, r.orderId) + ResolveAll(After(xs + [x]), x.ServerId(), TradesOf(x.attempt.response))
  {
    hide After, Next, Orderly, AfterOrder, Read, ResolveAll, SubmitTrades, Submit;
    var r := x.attempt.request;
    Snoc(xs, x);
    OrderNext(After(xs), x);
    AfterOrderFacts(st, x, submission, n);
    var t' := AfterOrder(st, x, submission, n);
    var t1: Tally :| t1.serverToBot == t'.serverToBot
      && ObservedOf(t', r.orderId) == ObservedOf(st.tally, r.orderId) + Read(t1, x.ServerId(), TradesOf(x.attempt.response));
    ReadsAlike(t1, After(xs + [x]), x.ServerId(), TradesOf(x.attempt.response));
  }

  lemma NotOnFile(t: Tally, w: World, x: Exchange)
    requires WorldOk(w) && NamesAgree(t, w) && x.attempt.request.NewOrder? && x.attempt.request.orderId !in w.used
    ensures x.attempt.request.orderId !in t.aggTicker
  {
    hide BooksOk;
  }

  lemma OrderTracks(st: State, xs: seq<Exchange>, x: Exchange, submission: string, n: nat)
    requires Tracks(st, xs, n) && WorldOk(After(xs)) && Orderly(After(xs), x)
    requires x.Result().Ok? && x.attempt.request.NewOrder?
    ensures var log := AttemptLog(submission, x.attempt, n + 1);
      Tracks(FoldOn(st, log), xs + [x], n + |log|)
  {
    hide UpTo, Kept, After, Next, Orderly, FilesAgree, WorldOk, AttemptLog, FoldOn, AfterOrder, InSequence, SeenTo,
         Submit, SubmitTrades;
    var log := AttemptLog(submission, x.attempt, n + 1);
    var w, r := After(xs), x.attempt.request;
    var t' := AfterOrder(st, x, submission, n);
    var b := BookFor(st.books, r.ticker);
    assert b == BookFor(w.books, r.ticker);
    var trades := SubmitTrades(b, r.orderId, r.side, r.otype, r.price, r.quantity);
    OrderFolds(st, w, x, submission, n);
    FoldOnKeeps(st, log);
    AttemptNumbered(submission, x.attempt, n + 1);
    Snoc(xs, x);
    OrderNext(w, x);
    NotOnFile(st.tally, w, x);
    OrderObserved(st, xs, x, submission, n);
    OrderFiles(st.tally, xs, x, t', trades, n);
    OrderSequence(st.tally, t', x, trades, n, n + |log|);
    PlacedBooks(st.books, w.books, r.ticker, Submit(b, r.orderId, r.side, r.otype, r.price, r.quantity));
  }

  // ----- whole runs -----

  lemma StartTracks()
    ensures Tracks(State(map[], START), [], 0)
  {
  }

  lemma StepTracks(st: State, xs: seq<Exchange>, x: Exchange, submission: string, n: nat)
    requires Tracks(st, xs, n) && WorldOk(After(xs)) && After(xs).dirty == {} && Orderly(After(xs), x) && !x.Result().Unknown?
    ensures var log := AttemptLog(submission, x.attempt, n + 1); Tracks(FoldOn(st, log), xs + [x], n + |log|)
  {
    hide Tracks, Orderly, After, AttemptLog, WorldOk, FoldOn, Step, IntentEvent;
    if x.Result().Rejected? {
      RejectedTracks(st, xs, x, submission, n);
      OnlyIntent(st, submission, x.attempt, n);
    } else if x.attempt.request.NewOrder? {
      OrderTracks(st, xs, x, submission, n);
    } else {
      CancelTracks(st, xs, x, submission, n);
    }
  }

  /** Throughout an orderly run without losses the checker files exactly what is owed and what is reported. */
  lemma {:induction false} RunTracks(xs: seq<Exchange>, submission: string)
    requires OrderlyRun(xs) && NothingLost(xs)
    ensures var log := RunLog(submission, Attempts(xs)); Tracks(Fold(log), xs, |log|)
  {
    hide Tracks, Orderly, After, Step, AttemptLog, WorldOk, FoldOn;
    if xs == [] {
      StartTracks();
    } else {
      var front, x := xs[..|xs| - 1], xs[|xs| - 1];
      assert front + [x] == xs && x in xs && forall y :: y in front ==> y in xs;
      RunTracks(front, submission);
      WorldStaysOk(front);
      NothingLostIsClean(front);
      var log := RunLog(submission, Attempts(front));
      RunLogSnoc(submission, Attempts(front), x.attempt);
      FoldConcat(log, AttemptLog(submission, x.attempt, |log| + 1));
      StepTracks(Fold(log), front, x, submission, |log|);
    }
  }

  lemma EndTracks(st: State, xs: seq<Exchange>, submission: string, endAt: int, n: nat)
    requires Tracks(st, xs, n)
    ensures Tracks(FoldOn(st, [EndEvent(submission, endAt, n + 1)]), xs, n + 1)
  {
    hide UpTo, Kept, After, FilesAgree, Process, SameBooks;
    var end := EndEvent(submission, endAt, n + 1);
    FoldOnOne(st, end);
    StepFresh(st, end, n);
    StepKeeps(st, end, Everywhere);
    EndIsQuiet(st.(tally := st.tally.(seen := UpTo(n + 1), maxSeq := n + 1)), end);
    SameFiles(st.tally, Step(st, end, Everywhere).tally, xs);
  }

  lemma EndIsQuiet(st: State, ev: Event)
    requires ev.endOfRun
    ensures Process(st, ev, Everywhere) == st
  {
  }

  lemma StreamTracks(xs: seq<Exchange>, submission: string, endAt: int)
    requires OrderlyRun(xs) && NothingLost(xs)
    ensures var s := Stream(submission, Attempts(xs), endAt); Tracks(Fold(s), xs, |s|)
    ensures Orphans(Fold(Stream(submission, Attempts(xs), endAt)).tally) == StrayCancels(Attempts(xs))
  {
    hide Tracks, Fold, FoldOn, StrayCancels, FillIds, AcceptedIds;
    var log := RunLog(submission, Attempts(xs));
    RunTracks(xs, submission);
    EndTracks(Fold(log), xs, submission, endAt, |log|);
    FoldConcat(log, [EndEvent(submission, endAt, |log| + 1)]);
    StreamKeys(submission, Attempts(xs), endAt);
    StrayIsUnaccepted(Attempts(xs));
  }

  // ----- the verdict on a complete run -----

  /** How one order of the run compares. */
  ghost function Compared(xs: seq<Exchange>, a: string): Verdict {
    Diff(Due(xs, a), Reported(xs, a))
  }

  lemma ComparedIsDiff(t: Tally, xs: seq<Exchange>, k: nat, v: Verdict)
    requires FilesAgree(t, xs) && k < |Accepted(xs)|
    ensures DiffIs(t, k, v) <==> Compared(xs, Accepted(xs)[k]) == v
  {
    hide Diff;
  }

  lemma NoGap(t: Tally, n: nat)
    requires SeenTo(t, n)
    ensures Gap(t) == 0
  {
    UpToFacts(n);
  }

  /**
   A complete run, whatever was reported in it, is correct exactly when for every accepted order the reported makers are
   known and the report agrees with the golden trades, and no cancel was answered with trades of an order not accepted.
   */
  lemma CompleteRunIsCorrectIff(xs: seq<Exchange>, submission: string, endAt: int, received: seq<Event>)
    requires OrderlyRun(xs) && NothingLost(xs) && SameEvents(received, Stream(submission, Attempts(xs), endAt))
    ensures Finalize(received) == Correct <==>
      && StrayCancels(Attempts(xs)) == {}
      && (forall a :: a in Accepted(xs) ==> AllKnown(Reported(xs, a)) && Agrees(Due(xs, a), Reported(xs, a)))
  {
    hide VerdictOf, Fold, Stream, FilesAgree, Agrees, AllKnown, StrayCancels, Accepted, SameBooks, NamesAgree,
         Orphans, Gap, InSequence, After, SameEvents;
    WholeStreamVerdict(xs, submission, endAt, received);
    StreamTracks(xs, submission, endAt);
    var s := Stream(submission, Attempts(xs), endAt);
    var t := Fold(s).tally;
    NoGap(t, |s|);
    CorrectIff(t);
    AllCompared(t, xs);
  }

  lemma AllCompared(t: Tally, xs: seq<Exchange>)
    requires FilesAgree(t, xs)
    ensures (forall k :: 0 <= k < |t.aggressors| ==> DiffIs(t, k, Correct)) <==>
      (forall a :: a in Accepted(xs) ==> AllKnown(Reported(xs, a)) && Agrees(Due(xs, a), Reported(xs, a)))
  {
    hide Agrees, AllKnown, Accepted, DiffIs, FilesAgree, Due, Reported;
    SameAggressors(t, xs);
    forall k | 0 <= k < |t.aggressors| ensures DiffIs(t, k, Correct) <==> Compared(xs, Accepted(xs)[k]) == Correct {
      ComparedIsDiff(t, xs, k, Correct);
    }
    if forall k :: 0 <= k < |t.aggressors| ==> DiffIs(t, k, Correct) {
      forall a | a in Accepted(xs) ensures Compared(xs, a) == Correct {
        var k :| 0 <= k < |Accepted(xs)| && Accepted(xs)[k] == a;
        assert DiffIs(t, k, Correct);
      }
    } else {
      var k :| 0 <= k < |t.aggressors| && !DiffIs(t, k, Correct);
      assert Accepted(xs)[k] in Accepted(xs);
    }
  }

  /** The k-th accepted order diverges, and no order accepted before it on its ticker names an unknown maker. */
  ghost predicate Diverges(xs: seq<Exchange>, k: nat) {
    && k < |Accepted(xs)| && Compared(xs, Accepted(xs)[k]) == Incorrect
    && forall j :: 0 <= j < k && HomeOf(xs, Accepted(xs)[j]) == HomeOf(xs, Accepted(xs)[k]) ==>
         Compared(xs, Accepted(xs)[j]) != Unverified
  }

  function HomeOf(xs: seq<Exchange>, a: string): string {
    if a in After(xs).home then After(xs).home[a] else ""
  }

  lemma TickersAgree(t: Tally, xs: seq<Exchange>, k: nat)
    requires NamesAgree(t, After(xs)) && WorldOk(After(xs)) && Kept(t) && k < |t.aggressors|
    ensures TickerOf(t, t.aggressors[k]) == HomeOf(xs, t.aggressors[k]) && HomeOf(xs, t.aggressors[k]) != ""
  {
    hide BooksOk, After;
    assert t.aggressors[k] in t.aggressors;
  }

  lemma SuspectIff(t: Tally, xs: seq<Exchange>, n: nat, k: nat)
    requires NamesAgree(t, After(xs)) && WorldOk(After(xs)) && Kept(t) && FilesAgree(t, xs) && InSequence(t, n)
    requires t.firstUnverifiable == map[] && k < |t.aggressors|
    ensures Suspect(t, k, TickerOf(t, t.aggressors[k]), SeqOf(t, t.aggressors[k])) <==>
      exists j :: 0 <= j < k && HomeOf(xs, Accepted(xs)[j]) == HomeOf(xs, Accepted(xs)[k]) && Compared(xs, Accepted(xs)[j]) == Unverified
  {
    hide FilesAgree, NamesAgree, WorldOk, Kept, HomeOf, TickerOf, SeqOf, DiffIs, Compared, Accepted;
    SameAggressors(t, xs);
    TickersAgree(t, xs, k);
    forall j | 0 <= j < k
      ensures DiffIs(t, j, Unverified) <==> Compared(xs, Accepted(xs)[j]) == Unverified
      ensures TickerOf(t, t.aggressors[j]) == HomeOf(xs, Accepted(xs)[j])
      ensures SeqOf(t, t.aggressors[j]) < SeqOf(t, t.aggressors[k])
    {
      ComparedIsDiff(t, xs, j, Unverified);
      TickersAgree(t, xs, j);
    }
  }

  lemma SameAggressors(t: Tally, xs: seq<Exchange>)
    requires FilesAgree(t, xs)
    ensures t.aggressors == Accepted(xs)
  {
  }

  lemma DivergesIsClean(t: Tally, xs: seq<Exchange>, n: nat, k: nat)
    requires Tracks(State(After(xs).books, t), xs, n) && WorldOk(After(xs)) && k < |t.aggressors| && Orphans(t) == {}
    ensures CleanDivergence(t, k) <==> Diverges(xs, k)
  {
    hide FilesAgree, NamesAgree, WorldOk, Kept, HomeOf, TickerOf, SeqOf, DiffIs, Compared, Accepted, Suspect, SeenTo,
         SameBooks, InSequence, Orphans, Gap;
    SameAggressors(t, xs);
    SuspectIff(t, xs, n, k);
    ComparedIsDiff(t, xs, k, Incorrect);
    NoGap(t, n);
  }

  /**
   It is incorrect exactly when some order diverges with no unknown maker before it on its ticker, provided no cancel
   answered with foreign trades has put the whole run in doubt.
   */
  lemma CompleteRunIsIncorrectIff(xs: seq<Exchange>, submission: string, endAt: int, received: seq<Event>)
    requires OrderlyRun(xs) && NothingLost(xs) && SameEvents(received, Stream(submission, Attempts(xs), endAt))
    ensures Finalize(received) == Incorrect <==>
      StrayCancels(Attempts(xs)) == {} && exists k: nat :: Diverges(xs, k)
  {
    hide VerdictOf, Fold, Stream, FilesAgree, StrayCancels, Accepted, NamesAgree, Orphans, InSequence, After,
         SameEvents, Diverges, CleanDivergence, WorldOk, SeenTo, Kept;
    WholeStreamVerdict(xs, submission, endAt, received);
    StreamTracks(xs, submission, endAt);
    WorldStaysOk(xs);
    var s := Stream(submission, Attempts(xs), endAt);
    var t := Fold(s).tally;
    SameAggressors(t, xs);
    IncorrectIff(t);
    if StrayCancels(Attempts(xs)) == {} {
      forall k | 0 <= k < |t.aggressors| ensures CleanDivergence(t, k) <==> Diverges(xs, k) {
        DivergesIsClean(t, xs, |s|, k);
      }
      DivergesInRange(xs);
    } else {
      StrayExcuses(t);
    }
  }

  lemma DivergesInRange(xs: seq<Exchange>)
    ensures forall k: nat :: Diverges(xs, k) ==> k < |Accepted(xs)|
  {
  }

  lemma StrayExcuses(t: Tally)
    requires Orphans(t) != {}
    ensures forall k :: !CleanDivergence(t, k)
  {
    hide Orphans, Gap;
  }

  /**
   Every matching bug is caught: when all reported makers are known and no cancel is answered with foreign trades, a
   complete run is incorrect exactly when some accepted order's report disagrees with the golden trades.
   */
  lemma EveryBugIsCaught(xs: seq<Exchange>, submission: string, endAt: int, received: seq<Event>)
    requires OrderlyRun(xs) && NothingLost(xs) && SameEvents(received, Stream(submission, Attempts(xs), endAt))
    requires StrayCancels(Attempts(xs)) == {} && forall a :: a in Accepted(xs) ==> AllKnown(Reported(xs, a))
    ensures Finalize(received) == Incorrect <==> exists a :: a in Accepted(xs) && !Agrees(Due(xs, a), Reported(xs, a))
  {
    hide Finalize, Stream, StrayCancels, Accepted, Due, Reported, AllKnown, Agrees, SameEvents, OrderlyRun,
         NothingLost, HomeOf;
    CompleteRunIsIncorrectIff(xs, submission, endAt, received);
    if a :| a in Accepted(xs) && !Agrees(Due(xs, a), Reported(xs, a)) {
      var k :| 0 <= k < |Accepted(xs)| && Accepted(xs)[k] == a;
      assert Diverges(xs, k);
    }
    if k: nat :| Diverges(xs, k) {
      assert Accepted(xs)[k] in Accepted(xs);
    }
  }

  // ----- the first wrong report -----

  /** The fills of a last exchange, as the checker reads them. */
  function LastFills(xs: seq<Exchange>, y: Exchange): seq<ObservedFill> {
    ResolveAll(After(xs + [y]), y.ServerId(), TradesOf(y.attempt.response))
  }

  /** All reported makers are orders of tickers on which nothing was lost. */
  ghost predicate KnownMakers(w: World, fills: seq<ObservedFill>) {
    forall f :: f in fills ==> f.makerKnown && f.makerBot in w.home && w.home[f.makerBot] !in w.dirty
  }

  lemma MakerOnFile(t: Tally, w: World, y: Exchange, i: nat)
    requires IdsAgree(t, w) && WorldOk(w) && Orderly(w, y)
    requires y.Result().Ok? && y.attempt.request.NewOrder? && y.attempt.request.ticker !in w.dirty
    requires i < |TradesOf(y.attempt.response)|
    requires KnownMakers(Next(w, y), ResolveAll(Next(w, y), y.ServerId(), TradesOf(y.attempt.response)))
    ensures var m := MatchedId(TradesOf(y.attempt.response)[i], y.ServerId());
      var onFile := t.serverToBot[y.ServerId() := y.attempt.request.orderId];
      m in onFile && m in Next(w, y).owner && onFile[m] == Next(w, y).owner[m]
  {
    hide Submit, SubmitTrades, BookFor, MatchedId, Next, BooksOk;
    var ts := TradesOf(y.attempt.response);
    ResolvedElement(Next(w, y), y.ServerId(), ts, i);
    var f := Resolve(Next(w, y), y.ServerId(), ts[i]);
    assert f.makerKnown && f.makerBot in Next(w, y).home;
    OrderNext(w, y);
    NextFacts(w, y);
  }

  lemma LieDiverges(st: State, w: World, y: Exchange, submission: string, n: nat)
    requires Lockstep(st, w, n) && WorldOk(w) && Orderly(w, y) && y.Result().Ok? && y.attempt.request.NewOrder?
    requires y.attempt.request.ticker !in w.dirty
    requires var fills := ResolveAll(Next(w, y), y.ServerId(), TradesOf(y.attempt.response));
      KnownMakers(Next(w, y), fills) && !Agrees(TrueTrades(w, y.attempt.request), fills)
    ensures var r := y.attempt.request;
      var t := AfterOrder(st, y, submission, n);
      && DiffOf(t, r.orderId) == Incorrect
      && OrderRecorded(st.tally, t, y, SubmitTrades(BookFor(st.books, r.ticker), r.orderId, r.side, r.otype, r.price, r.quantity), n)
  {
    hide SubmitTrades, Agrees, Settled, TaintAgrees, SeenTo, AfterOrder, UpTo, MatchedId, Next, ResolveAll,
         KnownMakers, Orderly,
         TradesOf, IdsAgree, Kept, OutcomeOf, WorldOk;
    var r, ts := y.attempt.request, TradesOf(y.attempt.response);
    assert BookFor(st.books, r.ticker) == BookFor(w.books, r.ticker);
    OrderlyOrder(w, y);
    AfterOrderFacts(st, y, submission, n);
    NothingObserved(st.tally, w, y);
    var t := AfterOrder(st, y, submission, n);
    var t1: Tally :| t1.serverToBot == t.serverToBot
      && ObservedOf(t, r.orderId) == ObservedOf(st.tally, r.orderId) + Read(t1, y.ServerId(), ts);
    forall i | 0 <= i < |ts|
      ensures var m := MatchedId(ts[i], y.ServerId());
        m in t1.serverToBot && m in Next(w, y).owner && t1.serverToBot[m] == Next(w, y).owner[m]
    {
      MakerOnFile(st.tally, w, y, i);
    }
    ReadIsResolve(t1, Next(w, y), y.ServerId(), ts);
    var fills := ResolveAll(Next(w, y), y.ServerId(), ts);
    assert [] + fills == fills;
    KnownIsKnown(Next(w, y), fills);
  }

  lemma KnownIsKnown(w: World, fills: seq<ObservedFill>)
    requires KnownMakers(w, fills)
    ensures AllKnown(fills)
  {
  }

  lemma NothingObserved(t: Tally, w: World, y: Exchange)
    requires IdsAgree(t, w) && Kept(t) && Orderly(w, y) && y.attempt.request.NewOrder?
    ensures ObservedOf(t, y.attempt.request.orderId) == []
  {
  }

  lemma LieCondemns(st: State, w: World, y: Exchange, submission: string, n: nat)
    requires Lockstep(st, w, n) && WorldOk(w) && Orderly(w, y) && y.Result().Ok? && y.attempt.request.NewOrder?
    requires y.attempt.request.ticker !in w.dirty
    requires var fills := ResolveAll(Next(w, y), y.ServerId(), TradesOf(y.attempt.response));
      KnownMakers(Next(w, y), fills) && !Agrees(TrueTrades(w, y.attempt.request), fills)
    ensures var log := AttemptLog(submission, y.attempt, n + 1); Condemned(FoldOn(st, log), submission, n + |log|)
  {
    hide Orderly, AttemptLog, AfterOrder, IdsAgree, TaintAgrees, Settled, SeenTo, Kept, Submit, SubmitTrades, DiffOf,
         Condemned,
         KnownMakers, ResolveAll, Next, Agrees, TradesOf, OutcomeOf, CleanBooksAgree, FoldOn, OrderRecorded, WorldOk;
    var r, log := y.attempt.request, AttemptLog(submission, y.attempt, n + 1);
    LieDiverges(st, w, y, submission, n);
    OrderFolds(st, w, y, submission, n);
    EndsCondemned(st.tally, w, y, FoldOn(st, log),
      SubmitTrades(BookFor(st.books, r.ticker), r.orderId, r.side, r.otype, r.price, r.quantity), n, submission, n + |log|);
  }

  /**
   However long a contestant was honest, and whatever answers were lost, its first report that disagrees on a ticker
   without losses, about makers of such tickers, convicts it.
   */
  lemma FirstLieConvicts(xs: seq<Exchange>, y: Exchange, submission: string, endAt: int, received: seq<Event>)
    requires HonestRun(xs) && NoHiddenCancel(xs) && Orderly(After(xs), y) && y.Result().Ok? && y.attempt.request.NewOrder?
    requires y.attempt.request.ticker !in After(xs).dirty
    requires KnownMakers(After(xs + [y]), LastFills(xs, y)) && !Agrees(TrueTrades(After(xs), y.attempt.request), LastFills(xs, y))
    requires SameEvents(received, Stream(submission, Attempts(xs + [y]), endAt))
    ensures Finalize(received) == Incorrect
  {
    hide HonestRun, NoHiddenCancel, Lockstep, Orderly, After, Next, KnownMakers, Agrees, TrueTrades, ResolveAll,
         Finalize, Stream,
         Fold, FoldOn, AttemptLog, RunLog, VerdictOf, Step, SameEvents, OutcomeOf, TradesOf, WorldOk;
    var log := RunLog(submission, Attempts(xs));
    var n := |log|;
    var log1 := AttemptLog(submission, y.attempt, n + 1);
    RunInLockstep(xs, submission);
    HonestWorldOk(xs);
    Snoc(xs, y);
    LieCondemns(Fold(log), After(xs), y, submission, n);
    WholeStreamVerdict(xs + [y], submission, endAt, received);
    OneMoreFolds(xs, y, submission, endAt);
  }

  lemma OneMoreFolds(xs: seq<Exchange>, y: Exchange, submission: string, endAt: int)
    ensures var log := RunLog(submission, Attempts(xs));
      var log1 := AttemptLog(submission, y.attempt, |log| + 1);
      Fold(Stream(submission, Attempts(xs + [y]), endAt)) == Ended(FoldOn(Fold(log), log1), submission, endAt, |log| + |log1|)
  {
    hide Step, Fold, FoldOn, AttemptLog, Attempts, RunLog;
    var log := RunLog(submission, Attempts(xs));
    var log1 := AttemptLog(submission, y.attempt, |log| + 1);
    AttemptsSnoc(xs, y);
    RunLogSnoc(submission, Attempts(xs), y.attempt);
    FoldConcat(log, log1);
    var end := EndEvent(submission, endAt, |log| + |log1| + 1);
    FoldConcat(log + log1, [end]);
    FoldOnOne(Fold(log + log1), end);
  }
}
