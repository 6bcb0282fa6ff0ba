/**
 What a loss costs. The verdict on the complete stream of an honest run that lost answers is decided by how many it lost
 and by the orders accepted on a ticker after a loss on it.
 */
module LossyRuns {
  import opened MarketTypes
  import opened RankedBook
  import opened Differential
  import opened Writer
  import opened ReplaySpec
  import opened ReplayLaws
  import opened VerdictLaws
  import opened Contestant
  import opened Soundness
  import opened SoundnessTheorems
  import opened HiddenCancel
  import opened StreamComplete

  // ----- one attempt is one intent -----

  lemma NotesCount(t: Tally, ev: Event)
    ensures NoteUnknown(t, ev).attempts == NoteAttempt(t).attempts == t.attempts + 1
    ensures SameOrders(t, NoteUnknown(t, ev)) && SameOrders(t, NoteAttempt(t))
  {
  }

  lemma NoteIntentCounts(t: Tally, ev: Event, trades: seq<Trade>)
    ensures NoteIntent(t, ev, trades).attempts == t.attempts + 1
  {
  }

  /** Processing an intent or a cancel counts an attempt; unless it is an accepted order it files no order. */
  lemma ProcessCounts(st: State, ev: Event)
    requires !ev.endOfRun && (ev.action.Intent? || ev.action.Cancel?)
    ensures var t' := Process(st, ev, Everywhere).tally;
      && t'.attempts == st.tally.attempts + 1
      && (ev.action.Cancel? || !ev.outcome.Ok? ==> SameOrders(st.tally, t'))
  {
    hide Submit, SubmitTrades, CancelIn, NoteUnknown, NoteAttempt, NoteIntent, SameOrders;
    NotesCount(st.tally, ev);
    if ev.action.Intent? {
      var b := BookFor(st.books, ev.ticker);
      NoteIntentCounts(st.tally, ev, SubmitTrades(b, ev.orderId, ev.action.side, ev.orderType, ev.price, ev.volume));
    }
  }

  lemma IntentKind(submission: string, a: Attempt, outcome: Outcome, serverId: nat, seqNo: nat)
    ensures var ev := IntentEvent(submission, a, outcome, serverId, seqNo);
      && !ev.endOfRun && ev.outcome == outcome && ev.seqNo == seqNo
      && (if a.request.NewOrder? then ev.action.Intent? else ev.action.Cancel?)
  {
  }

  lemma IntentCounts(st: State, submission: string, a: Attempt, outcome: Outcome, serverId: nat, n: nat)
    requires SeenTo(st.tally, n)
    ensures var t' := Step(st, IntentEvent(submission, a, outcome, serverId, n + 1), Everywhere).tally;
      && t'.attempts == st.tally.attempts + 1
      && (a.request.CancelRequest? || !outcome.Ok? ==> SameOrders(st.tally, t'))
  {
    hide Process, UpTo, IntentEvent;
    var ev := IntentEvent(submission, a, outcome, serverId, n + 1);
    IntentKind(submission, a, outcome, serverId, n + 1);
    StepFresh(st, ev, n);
    ProcessCounts(st.(tally := st.tally.(seen := UpTo(n + 1), maxSeq := n + 1)), ev);
  }

  lemma FillsCountNothing(t: Tally, agg: string, serverId: nat, ts: seq<ParsedTrade>, n: nat)
    ensures WithFills(t, agg, serverId, ts, n).attempts == t.attempts
  {
  }

  lemma AttemptCounts(st: State, submission: string, a: Attempt, n: nat)
    requires SeenTo(st.tally, n)
    ensures FoldOn(st, AttemptLog(submission, a, n + 1)).tally.attempts == st.tally.attempts + 1
  {
    hide Step, UpTo, FoldOn, WithFills, OutcomeOf, TradesOf, IntentEvent, FillEvents, ServerIdOf;
    var ev := IntentEvent(submission, a, OutcomeOf(a.response), ServerIdOf(a.response), n + 1);
    var serverId, ts := ServerIdOf(a.response), TradesOf(a.response);
    IntentKind(submission, a, OutcomeOf(a.response), serverId, n + 1);
    IntentCounts(st, submission, a, OutcomeOf(a.response), serverId, n);
    FoldOnOne(st, ev);
    FoldOnConcat(st, [ev], FillEvents(submission, a, serverId, ts, n + 2));
    StepSeen(st, ev, n);
    FillsFold(Step(st, ev, Everywhere), submission, a, serverId, ts, n + 1);
    FillsCountNothing(Step(st, ev, Everywhere).tally, RequestId(a.request), serverId, ts, n + 1);
  }

  /** On every run, honest or not, the replay counts exactly the attempts. */
  lemma {:induction false} RunAttempts(submission: string, attempts: seq<Attempt>)
    ensures Fold(RunLog(submission, attempts)).tally.attempts == |attempts|
  {
    hide Step, AttemptLog;
    if attempts != [] {
      var front, a := attempts[..|attempts| - 1], attempts[|attempts| - 1];
      RunAttempts(submission, front);
      var log := RunLog(submission, front);
      RunNumbered(submission, front);
      NumberedFold(log);
      AttemptCounts(Fold(log), submission, a, |log|);
      FoldConcat(log, AttemptLog(submission, a, |log| + 1));
    }
  }

  lemma EndCountsNothing(st: State, submission: string, endAt: int, n: nat)
    requires SeenTo(st.tally, n)
    ensures Step(st, EndEvent(submission, endAt, n + 1), Everywhere).tally.attempts == st.tally.attempts
  {
    hide UpTo;
    StepFresh(st, EndEvent(submission, endAt, n + 1), n);
  }

  lemma StreamAttempts(submission: string, attempts: seq<Attempt>, endAt: int)
    ensures Fold(Stream(submission, attempts, endAt)).tally.attempts == |attempts|
  {
    hide Fold, Step, RunLog;
    var log := RunLog(submission, attempts);
    var end := EndEvent(submission, endAt, |log| + 1);
    RunAttempts(submission, attempts);
    RunNumbered(submission, attempts);
    NumberedFold(log);
    FoldConcat(log, [end]);
    FoldOnOne(Fold(log), end);
    EndCountsNothing(Fold(log), submission, endAt, |log|);
  }

  lemma {:induction false} AsManyAttempts(xs: seq<Exchange>)
    ensures |Attempts(xs)| == |xs|
  {
    if xs != [] {
      AsManyAttempts(xs[..|xs| - 1]);
    }
  }

  // ----- the verdict -----

  /** Every order the checker recorded from the complete stream compares correct. */
  ghost predicate AllCompareCorrect(xs: seq<Exchange>, submission: string, endAt: int) {
    var t := Fold(Stream(submission, Attempts(xs), endAt)).tally;
    forall a :: a in t.aggressors ==> DiffOf(t, a) == Correct
  }

  lemma AllDiffs(t: Tally)
    ensures (forall a :: a in t.aggressors ==> DiffOf(t, a) == Correct)
      <==> (forall k :: 0 <= k < |t.aggressors| ==> DiffIs(t, k, Correct))
  {
    hide DiffOf;
    if forall k :: 0 <= k < |t.aggressors| ==> DiffIs(t, k, Correct) {
      forall a | a in t.aggressors ensures DiffOf(t, a) == Correct {
        var k :| 0 <= k < |t.aggressors| && t.aggressors[k] == a;
        assert DiffIs(t, k, Correct);
      }
    }
  }

  /**
   The complete stream of an honest run is correct exactly when fewer than one in twenty of its answers are lost and
   every recorded order compares correct all the same.
   */
  lemma HonestIsCorrectIff(xs: seq<Exchange>, submission: string, endAt: int, received: seq<Event>)
    requires HonestRun(xs) && NoHiddenCancel(xs)
    requires SameEvents(received, Stream(submission, Attempts(xs), endAt))
    ensures Finalize(received) == Correct <==>
      (xs == [] || 20 * After(xs).lost < |xs|) && AllCompareCorrect(xs, submission, endAt)
  {
    hide VerdictOf, Fold, Stream, DiffOf, Gap, HonestRun, NoHiddenCancel, SameEvents, Settled, Orphans, After;
    WholeStreamVerdict(xs, submission, endAt, received);
    StreamTally(xs, submission, endAt);
    StreamAttempts(submission, Attempts(xs), endAt);
    AsManyAttempts(xs);
    var t := Fold(Stream(submission, Attempts(xs), endAt)).tally;
    KeptCounts(t);
    CorrectIff(t);
    AllDiffs(t);
  }

  lemma KeptCounts(t: Tally)
    requires Kept(t)
    ensures t.unknown <= t.attempts
  {
  }

  // ----- runs that accept nothing behind a loss -----

  /** No order is accepted on a ticker on which an order's outcome has been lost. */
  predicate ClearOfLosses(xs: seq<Exchange>) {
    xs == [] || (
      && ClearOfLosses(xs[..|xs| - 1])
      && (var x := xs[|xs| - 1];
          x.attempt.request.NewOrder? && x.Result().Ok? ==> x.attempt.request.ticker !in After(xs[..|xs| - 1]).dirty))
  }

  ghost predicate ComparesCorrect(t: Tally) {
    forall a :: a in t.aggressors ==> DiffOf(t, a) == Correct
  }

  lemma SameOrdersCompare(t: Tally, t': Tally)
    requires ComparesCorrect(t) && SameOrders(t, t')
    ensures ComparesCorrect(t')
  {
    hide Diff;
  }

  /** An accepted order on a clean ticker compares correct, and the earlier ones still do. */
  lemma CleanOrderCompares(st: State, w: World, x: Exchange, submission: string, n: nat)
    requires Lockstep(st, w, n) && WorldOk(w) && Honest(w, x) && x.Result().Ok? && x.attempt.request.NewOrder?
    requires x.attempt.request.ticker !in w.dirty && ComparesCorrect(st.tally)
    ensures ComparesCorrect(AfterOrder(st, x, submission, n))
  {
    hide SubmitTrades, Diff, Agrees, AllKnown, MatchedId, UpTo, SeenTo, WorldOk, Orderly, Truthful, AfterOrder,
         TaintAgrees,
         Settled, CleanBooksAgree;
    var r := x.attempt.request;
    OrderlyOrder(w, x);
    AfterOrderFacts(st, x, submission, n);
    NewOnFile(st.tally, w, x);
    var t' := AfterOrder(st, x, submission, n);
    var t1: Tally :| t1.serverToBot == t'.serverToBot
      && ObservedOf(t', r.orderId) == ObservedOf(st.tally, r.orderId) + Read(t1, x.ServerId(), TradesOf(x.attempt.response));
    var read := Read(t1, x.ServerId(), TradesOf(x.attempt.response));
    assert [] + read == read;
    CleanOrderAgrees(st, w, x, t1);
  }

  lemma NewOnFile(t: Tally, w: World, x: Exchange)
    requires IdsAgree(t, w) && Kept(t) && Orderly(w, x) && x.attempt.request.NewOrder?
    ensures ObservedOf(t, x.attempt.request.orderId) == [] && x.attempt.request.orderId !in t.aggressors
  {
  }

  lemma StepCompares(st: State, w: World, x: Exchange, submission: string, n: nat)
    requires Lockstep(st, w, n) && WorldOk(w) && Honest(w, x) && ComparesCorrect(st.tally)
    requires x.attempt.request.NewOrder? && x.Result().Ok? ==> x.attempt.request.ticker !in w.dirty
    ensures ComparesCorrect(FoldOn(st, AttemptLog(submission, x.attempt, n + 1)).tally)
  {
    hide Lockstep, Honest, WorldOk, ComparesCorrect, AttemptLog, FoldOn, Step, AfterOrder, Submit;
    if x.attempt.request.NewOrder? && x.Result().Ok? {
      CleanOrderCompares(st, w, x, submission, n);
      LockstepSeen(st, w, n);
      HonestIsOrderly(w, x);
      OrderFolds(st, w, x, submission, n);
    } else {
      LockstepSeen(st, w, n);
      QuietAttempt(st, w, x, submission, n);
    }
  }

  lemma LockstepSeen(st: State, w: World, n: nat)
    requires Lockstep(st, w, n)
    ensures SeenTo(st.tally, n)
  {
  }

  lemma QuietAttempt(st: State, w: World, x: Exchange, submission: string, n: nat)
    requires SeenTo(st.tally, n) && Honest(w, x) && !(x.attempt.request.NewOrder? && x.Result().Ok?)
    requires ComparesCorrect(st.tally)
    ensures ComparesCorrect(FoldOn(st, AttemptLog(submission, x.attempt, n + 1)).tally)
  {
    hide Step, ComparesCorrect, IntentEvent, SeenTo, AttemptLog, FoldOn, ServerIdOf;
    NoOrderNoTrades(w, x);
    OnlyIntent(st, submission, x.attempt, n);
    IntentCounts(st, submission, x.attempt, x.Result(), ServerIdOf(x.attempt.response), n);
    SameOrdersCompare(st.tally,
      Step(st, IntentEvent(submission, x.attempt, x.Result(), ServerIdOf(x.attempt.response), n + 1), Everywhere).tally);
  }

  lemma NoOrderNoTrades(w: World, x: Exchange)
    requires Honest(w, x) && !(x.attempt.request.NewOrder? && x.Result().Ok?)
    ensures TradesOf(x.attempt.response) == []
  {
  }

  lemma {:induction false} RunCompares(xs: seq<Exchange>, submission: string)
    requires HonestRun(xs) && NoHiddenCancel(xs) && ClearOfLosses(xs)
    ensures ComparesCorrect(Fold(RunLog(submission, Attempts(xs))).tally)
  {
    hide Lockstep, Honest, HidesCancel, After, Step, AttemptLog, ComparesCorrect, WorldOk, FoldOn;
    if xs == [] {
      NothingCompares();
    } else {
      var front, x := xs[..|xs| - 1], xs[|xs| - 1];
      RunCompares(front, submission);
      RunInLockstep(front, submission);
      HonestWorldOk(front);
      var log := RunLog(submission, Attempts(front));
      RunLogSnoc(submission, Attempts(front), x.attempt);
      FoldConcat(log, AttemptLog(submission, x.attempt, |log| + 1));
      StepCompares(Fold(log), After(front), x, submission, |log|);
    }
  }

  lemma NothingCompares()
    ensures ComparesCorrect(START)
  {
  }

  lemma StreamCompares(xs: seq<Exchange>, submission: string, endAt: int)
    requires HonestRun(xs) && NoHiddenCancel(xs) && ClearOfLosses(xs)
    ensures AllCompareCorrect(xs, submission, endAt)
  {
    hide Fold, Step, RunLog, DiffOf, HonestRun, NoHiddenCancel, ClearOfLosses;
    var log := RunLog(submission, Attempts(xs));
    RunCompares(xs, submission);
    RunNumbered(submission, Attempts(xs));
    NumberedFold(log);
    FoldConcat(log, [EndEvent(submission, endAt, |log| + 1)]);
    FoldOnOne(Fold(log), EndEvent(submission, endAt, |log| + 1));
    EndStep(Fold(log), submission, endAt, |log|);
    var t' := Step(Fold(log), EndEvent(submission, endAt, |log| + 1), Everywhere).tally;
    SameOrdersCompare(Fold(log).tally, t');
  }

  /**
   So an honest run that accepts no order behind a loss on its ticker passes exactly when it has lost fewer than one in
   twenty answers: losses do not withhold the verdict before that.
   */
  lemma ClearRunIsCorrectIff(xs: seq<Exchange>, submission: string, endAt: int, received: seq<Event>)
    requires HonestRun(xs) && NoHiddenCancel(xs) && ClearOfLosses(xs)
    requires SameEvents(received, Stream(submission, Attempts(xs), endAt))
    ensures Finalize(received) == Correct <==> xs == [] || 20 * After(xs).lost < |xs|
  {
    hide HonestRun, NoHiddenCancel, ClearOfLosses, Finalize, Stream, SameEvents, AllCompareCorrect, After;
    StreamCompares(xs, submission, endAt);
    HonestIsCorrectIff(xs, submission, endAt, received);
  }

  // ----- an instance -----

  /** A cancel the server does not know of ... */
  const REFUSED := Exchange(Attempt(CancelRequest(7, "7"), Answered(404, false, 0, []), 0), false, 0)

  /** ... and an order whose answer never comes. */
  const UNHEARD := Exchange(Attempt(NewOrder("0-1", Buy, Limit, "T", 10, 1), TimedOut, 0), false, 0)

  function Refusals(n: nat): seq<Exchange> {
    if n == 0 then [] else Refusals(n - 1) + [REFUSED]
  }

  lemma RefusedChangesNothing()
    ensures Honest(GENESIS, REFUSED) && !HidesCancel(GENESIS, REFUSED) && Next(GENESIS, REFUSED) == GENESIS
  {
  }

  lemma {:induction false} RefusalsAreHonest(n: nat)
    ensures var xs := Refusals(n);
      |xs| == n && HonestRun(xs) && NoHiddenCancel(xs) && ClearOfLosses(xs) && After(xs) == GENESIS
  {
    hide Honest, HidesCancel, Next;
    if n != 0 {
      RefusalsAreHonest(n - 1);
      RefusedChangesNothing();
      assert Refusals(n)[..n - 1] == Refusals(n - 1);
    }
  }

  lemma UnheardIsLost()
    ensures Honest(GENESIS, UNHEARD) && !HidesCancel(GENESIS, UNHEARD) && Next(GENESIS, UNHEARD).lost == 1
  {
  }

  /** Twenty refusals and one order of unknown outcome: the complete stream is judged correct. */
  lemma LossIsForgiven(submission: string, endAt: int, received: seq<Event>)
    requires SameEvents(received, Stream(submission, Attempts(Refusals(20) + [UNHEARD]), endAt))
    ensures Finalize(received) == Correct
  {
    hide Honest, HidesCancel, Next, Finalize, Stream, SameEvents, Refusals;
    var xs := Refusals(20) + [UNHEARD];
    RefusalsAreHonest(20);
    UnheardIsLost();
    assert xs[..20] == Refusals(20);
    ClearRunIsCorrectIff(xs, submission, endAt, received);
  }
}
