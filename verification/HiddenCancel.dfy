/**
 The limit of the soundness promise. A cancel that took effect while its answer was lost is not attributed to any
 ticker, and after one some honest continuation is judged incorrect.
 */
module HiddenCancel {
  import opened MarketTypes
  import opened RankedBook
  import opened BookLaws
  import opened Differential
  import opened Writer
  import opened ReplaySpec
  import opened ReplayLaws
  import opened VerdictLaws
  import opened Contestant
  import opened Soundness
  import opened SoundnessTheorems

  // ----- a hidden cancel convicts -----

  /** A market order for everything that rests trades with everything that rests. */
  lemma {:induction false} SweepsEverything(opp: seq<Resting>, s: Side, limit: int, band: int, r: Resting)
    requires InRank(opp, Opposite(s)) && r in opp
    ensures r.id in Makers(Sweep(opp, s, true, limit, band, Depth(opp, s, true, limit)).trades)
  {
    RankedDepth(opp[1..], s, true, limit);
    var sw := Sweep(opp, s, true, limit, band, Depth(opp, s, true, limit));
    assert sw.trades[0].maker == opp[0].id && sw.trades[0] in sw.trades;
    if r != opp[0] {
      SweepsEverything(opp[1..], s, limit, band, r);
      var rest := Sweep(opp[1..], s, true, limit, band, Depth(opp[1..], s, true, limit)).trades;
      assert sw.trades[1..] == rest;
      MakersCons(sw.trades[0], rest);
      assert [sw.trades[0]] + rest == sw.trades;
    }
  }

  /** The order that exposes a hidden cancel: a market order for everything on the cancelled order's side. */
  function Probe(b: Book, bot: string, id: string, ticker: string): Request
    requires bot in b.live
  {
    var s := Opposite(b.live[bot].side);
    NewOrder(id, s, Market, ticker, 0, Depth(b.Of(b.live[bot].side), s, true, 0))
  }

  /** The golden book still expects the cancelled order to trade; the contestant's book no longer has it. */
  lemma ProbeDiverges(b: Book, bot: string, id: string, ticker: string, obs: seq<ObservedFill>)
    requires Sound(b) && LiveExact(b) && bot in b.live
    requires var r := Probe(b, bot, id, ticker);
      AllKnown(obs) && Agrees(SubmitTrades(CancelOrder(b, bot), id, r.side, Market, 0, r.quantity), obs)
    ensures var r := Probe(b, bot, id, ticker);
      Diff(SubmitTrades(b, id, r.side, Market, 0, r.quantity), obs) == Incorrect
  {
    hide FirstWith, InBand;
    var r := Probe(b, bot, id, ticker);
    var exp := SubmitTrades(b, id, r.side, Market, 0, r.quantity);
    var opp := b.Of(b.live[bot].side);
    RestsLive(b, bot);
    var o :| o in opp && o.id == bot;
    SweepsEverything(opp, r.side, 0, Band(opp, true, 0), o);
    assert bot in Makers(exp);
    PositiveTrades(b, id, r.side, Market, 0, r.quantity);
    MakerHasVolume(exp, bot);
    Unfilled(obs, bot);
    CancelKeepsSound(b, bot);
    CancelKeepsLive(b, bot);
    CancelDropsOneId(b, bot);
    if Agrees(exp, obs) {
      var f :| f in obs && f.makerBot == bot;
      MakersAreLive(CancelOrder(b, bot), id, r.side, Market, 0, r.quantity, bot);
    }
  }

  lemma RestsLive(b: Book, bot: string)
    requires LiveExact(b) && bot in b.live
    ensures exists o :: o in b.Of(b.live[bot].side) && o.id == bot
  {
    if bot in Ids(b.bids) {
      var o :| o in b.bids && o.id == bot;
      assert o in b.Of(b.live[bot].side);
    } else {
      var o :| o in b.asks && o.id == bot;
      assert o in b.Of(b.live[bot].side);
    }
  }

  /** What is known on both sides right after the hidden cancel: everything but the book it touched. */
  ghost predicate AfterHidden(st: State, w: World, n: nat) {
    && SeenTo(st.tally, n) && TaintAgrees(st.tally, w, n) && IdsAgree(st.tally, w) && Settled(st.tally, {})
  }

  lemma HiddenStep(st: State, w: World, x: Exchange, submission: string, n: nat)
    requires Lockstep(st, w, n) && WorldOk(w) && Honest(w, x) && HidesCancel(w, x)
    ensures var st1 := FoldOn(st, AttemptLog(submission, x.attempt, n + 1));
      && AfterHidden(st1, Next(w, x), n + 1) && Kept(st1.tally) && st1.books == st.books
  {
    hide Step, Agrees, AllKnown, Settled, IdsAgree, TaintAgrees, SeenTo, WorldOk, Next, CleanBooksAgree;
    UnknownBookkeeping(st, w, x, submission, n);
    OnlyIntent(st, submission, x.attempt, n);
    StepKeeps(st, IntentEvent(submission, x.attempt, Unknown, 0, n + 1), Everywhere);
    LostRequestKeepsIds(st.tally, w, x);
    SameOrdersKeepIds(st.tally, Step(st, IntentEvent(submission, x.attempt, Unknown, 0, n + 1), Everywhere).tally, Next(w, x));
  }

  lemma SameOrdersKeepIds(t: Tally, t': Tally, w: World)
    requires IdsAgree(t, w) && SameOrders(t, t')
    ensures IdsAgree(t', w)
  {
  }

  lemma HiddenBooks(st: State, w: World, x: Exchange, ticker: string, bot: string)
    requires CleanBooksAgree(st, w) && HidesCancel(w, x) && bot == w.owner[x.attempt.request.targetId] && ticker == w.home[bot]
    ensures BookFor(Next(w, x).books, ticker) == CancelOrder(BookFor(st.books, ticker), bot)
    ensures bot in BookFor(st.books, ticker).live && ticker !in Next(w, x).dirty
  {
    hide CancelOrder;
  }

  /** The probe's honest answer makes its comparison fail, and nothing on record excuses it. */
  lemma ProbeConvicts(st: State, w: World, y: Exchange, submission: string, n: nat, bot: string)
    requires AfterHidden(st, w, n) && Kept(st.tally) && WorldOk(w)
    requires y.attempt.request.NewOrder? && y.Result().Ok? && Honest(w, y)
    requires var r := y.attempt.request;
      && r.ticker !in w.dirty
      && Sound(BookFor(st.books, r.ticker)) && LiveExact(BookFor(st.books, r.ticker))
      && bot in BookFor(st.books, r.ticker).live
      && r == Probe(BookFor(st.books, r.ticker), bot, r.orderId, r.ticker)
      && BookFor(w.books, r.ticker) == CancelOrder(BookFor(st.books, r.ticker), bot)
    ensures var t := AfterOrder(st, y, submission, n);
      && |t.aggressors| != 0 && t.aggressors == st.tally.aggressors + [y.attempt.request.orderId]
      && DiffOf(t, y.attempt.request.orderId) == Incorrect
      && OrderRecorded(st.tally, t, y, SubmitTrades(BookFor(st.books, y.attempt.request.ticker), y.attempt.request.orderId, y.attempt.request.side, Market, 0, y.attempt.request.quantity), n)
  {
    hide SubmitTrades, Agrees, AllKnown, Sound, LiveExact, CancelOrder, Settled, TaintAgrees, SeenTo, Diff,
         AfterOrder, UpTo, MatchedId;
    var r := y.attempt.request;
    var b := BookFor(st.books, r.ticker);
    var ts := TradesOf(y.attempt.response);
    AfterOrderFacts(st, y, submission, n);
    var t := AfterOrder(st, y, submission, n);
    var t1: Tally :| t1.serverToBot == t.serverToBot
      && ObservedOf(t, r.orderId) == ObservedOf(st.tally, r.orderId) + Read(t1, y.ServerId(), ts);
    assert ObservedOf(st.tally, r.orderId) == [];
    assert [] + Read(t1, y.ServerId(), ts) == Read(t1, y.ServerId(), ts);
    forall i | 0 <= i < |ts|
      ensures var m := MatchedId(ts[i], y.ServerId());
        m in t1.serverToBot && m in w.owner && t1.serverToBot[m] == w.owner[m]
    {
      ReportedMakersOnFile(st.tally, w, y, i);
    }
    ReadIsResolve(t1, w, y.ServerId(), ts);
    ProbeDiverges(b, bot, r.orderId, r.ticker, ResolveAll(w, y.ServerId(), ts));
  }

  lemma NothingExcuses(t0: Tally, w: World, y: Exchange, t: Tally, trades: seq<Trade>, n: nat, t': Tally, m: nat)
    requires TaintAgrees(t0, w, n) && Settled(t0, {}) && IdsAgree(t0, w) && Kept(t0) && Orderly(w, y)
    requires y.attempt.request.NewOrder? && y.Result().Ok? && y.attempt.request.ticker !in w.dirty
    requires OrderRecorded(t0, t, y, trades, n) && DiffOf(t, y.attempt.request.orderId) == Incorrect
    requires SameOrders(t, t') && t'.firstUnverifiable == t.firstUnverifiable && SeenTo(t', m)
    ensures VerdictOf(t') == Incorrect
  {
    hide DiffOf, VerdictOf, Orderly, Settled, IdsAgree, Kept, SeenTo, GlobalTaint;
    var r := y.attempt.request;
    var k := |t0.aggressors|;
    NothingMissing(t0, w, y, t, trades, n, t', m);
    assert DiffOf(t', r.orderId) == DiffOf(t, r.orderId) by {
      SameDiff(t, t', r.orderId);
    }
    assert t'.aggressors[k] == r.orderId && DiffIs(t', k, Incorrect);
    forall j | 0 <= j < k && TickerOf(t', t'.aggressors[j]) == r.ticker ensures !DiffIs(t', j, Unverified) {
      EarlierStands(t0, w, y, t, trades, n, t', j);
    }
    assert CleanDivergence(t', k);
    IncorrectIff(t');
  }

  lemma SameDiff(t: Tally, t': Tally, a: string)
    requires ExpectedOf(t', a) == ExpectedOf(t, a) && ObservedOf(t', a) == ObservedOf(t, a)
    ensures DiffOf(t', a) == DiffOf(t, a)
  {
  }

  lemma NothingMissing(t0: Tally, w: World, y: Exchange, t: Tally, trades: seq<Trade>, n: nat, t': Tally, m: nat)
    requires IdsAgree(t0, w) && y.attempt.request.NewOrder? && OrderRecorded(t0, t, y, trades, n)
    requires SameOrders(t, t') && SeenTo(t', m)
    ensures !GlobalTaint(t')
  {
    hide UpTo;
    UpToFacts(m);
  }

  /** An earlier order on the same clean ticker was settled before and is settled still. */
  lemma EarlierStands(t0: Tally, w: World, y: Exchange, t: Tally, trades: seq<Trade>, n: nat, t': Tally, j: nat)
    requires TaintAgrees(t0, w, n) && Settled(t0, {}) && IdsAgree(t0, w) && Kept(t0) && Orderly(w, y)
    requires y.attempt.request.NewOrder? && y.attempt.request.ticker !in w.dirty
    requires OrderRecorded(t0, t, y, trades, n) && SameOrders(t, t')
    requires j < |t0.aggressors| && TickerOf(t', t'.aggressors[j]) == y.attempt.request.ticker
    ensures !DiffIs(t', j, Unverified)
  {
    hide DiffOf;
    var a := t0.aggressors[j];
    assert t'.aggressors[j] == a && a in t0.aggressors;
    assert SettledOne(t0, a);
    SameDiff(t0, t', a);
  }

  /** The state once the end marker is in as well. */
  function Ended(st: State, submission: string, endAt: int, m: nat): State {
    Step(st, EndEvent(submission, endAt, m + 1), Everywhere)
  }

  ghost predicate Condemned(st: State, submission: string, m: nat) {
    forall endAt :: VerdictOf(Ended(st, submission, endAt, m).tally) == Incorrect
  }

  lemma ProbeEnds(st: State, w: World, y: Exchange, submission: string, n: nat, bot: string)
    requires AfterHidden(st, w, n) && Kept(st.tally) && WorldOk(w)
    requires y.attempt.request.NewOrder? && y.Result().Ok? && Honest(w, y)
    requires var r := y.attempt.request;
      && r.ticker !in w.dirty
      && Sound(BookFor(st.books, r.ticker)) && LiveExact(BookFor(st.books, r.ticker))
      && bot in BookFor(st.books, r.ticker).live
      && r == Probe(BookFor(st.books, r.ticker), bot, r.orderId, r.ticker)
      && BookFor(w.books, r.ticker) == CancelOrder(BookFor(st.books, r.ticker), bot)
    ensures var log := AttemptLog(submission, y.attempt, n + 1);
      Condemned(FoldOn(st, log), submission, n + |log|)
  {
    hide Honest, Orderly, Sound, LiveExact, CancelOrder, AttemptLog, AfterOrder, IdsAgree, TaintAgrees, Settled,
         SeenTo, Kept, Ended, WorldOk, Submit, SubmitTrades, DiffOf, Condemned;
    var r := y.attempt.request;
    ProbeConvicts(st, w, y, submission, n, bot);
    HonestIsOrderly(w, y);
    OrderFolds(st, w, y, submission, n);
    var log := AttemptLog(submission, y.attempt, n + 1);
    EndsCondemned(st.tally, w, y, FoldOn(st, log),
      SubmitTrades(BookFor(st.books, r.ticker), r.orderId, r.side, Market, 0, r.quantity), n, submission, n + |log|);
  }

  lemma EndsCondemned(t0: Tally, w: World, y: Exchange, st: State, trades: seq<Trade>, n: nat, submission: string,
                      m: nat)
    requires TaintAgrees(t0, w, n) && Settled(t0, {}) && IdsAgree(t0, w) && Kept(t0) && Orderly(w, y)
    requires y.attempt.request.NewOrder? && y.Result().Ok? && y.attempt.request.ticker !in w.dirty
    requires OrderRecorded(t0, st.tally, y, trades, n) && DiffOf(st.tally, y.attempt.request.orderId) == Incorrect
    requires SeenTo(st.tally, m)
    ensures Condemned(st, submission, m)
  {
    hide Orderly, VerdictOf, IdsAgree, TaintAgrees, Settled, SeenTo, Kept, Ended, DiffOf, OrderRecorded;
    var m' := m + 1;
    forall endAt ensures VerdictOf(Ended(st, submission, endAt, m).tally) == Incorrect {
      EndStep(st, submission, endAt, m);
      NothingExcuses(t0, w, y, st.tally, trades, n, Ended(st, submission, endAt, m).tally, m');
    }
  }

  lemma HiddenRunConvicts(st: State, w: World, x: Exchange, submission: string, n: nat) returns (y: Exchange)
    requires Lockstep(st, w, n) && WorldOk(w) && Honest(w, x) && HidesCancel(w, x) && WorldOk(Next(w, x))
    ensures Honest(Next(w, x), y) && y.attempt.request.NewOrder? && y.Result().Ok?
    ensures var st1 := FoldOn(st, AttemptLog(submission, x.attempt, n + 1));
      var log := AttemptLog(submission, y.attempt, n + 2);
      Condemned(FoldOn(st1, log), submission, n + 1 + |log|)
  {
    hide Lockstep, Honest, Next, Sound, LiveExact, CancelOrder, AttemptLog, IdsAgree, TaintAgrees, Settled, SeenTo,
         Kept, WorldOk, Submit, SubmitTrades, Condemned;
    var bot := w.owner[x.attempt.request.targetId];
    var ticker := w.home[bot];
    LockstepParts(st, w, n, ticker);
    var w1 := Next(w, x);
    var st1 := FoldOn(st, AttemptLog(submission, x.attempt, n + 1));
    HiddenStep(st, w, x, submission, n);
    HiddenBooks(st, w, x, ticker, bot);
    var b := BookFor(st.books, ticker);
    var id := FreshString(w1.used);
    var serverId := FreshNumber(w1.owner.Keys);
    TickerNamed(w, x, bot);
    y := HonestAnswerExists(w1, Probe(b, bot, id, ticker), serverId);
    ProbeEnds(st1, w1, y, submission, n + 1, bot);
  }

  lemma TickerNamed(w: World, x: Exchange, bot: string)
    requires WorldOk(w) && bot in w.home
    ensures w.home[bot] != ""
  {
  }

  lemma LockstepParts(st: State, w: World, n: nat, ticker: string)
    requires Lockstep(st, w, n) && WorldOk(w) && ticker !in w.dirty
    ensures CleanBooksAgree(st, w)
    ensures Sound(BookFor(st.books, ticker)) && LiveExact(BookFor(st.books, ticker))
  {
    hide Sound, LiveExact;
    BookForOk(w, ticker);
    assert BookFor(st.books, ticker) == BookFor(w.books, ticker);
  }

  lemma EndStep(st: State, submission: string, endAt: int, m: nat)
    requires SeenTo(st.tally, m)
    ensures var t' := Ended(st, submission, endAt, m).tally;
      SameOrders(st.tally, t') && t'.firstUnverifiable == st.tally.firstUnverifiable && SeenTo(t', m + 1)
  {
    hide UpTo;
    StepFresh(st, EndEvent(submission, endAt, m + 1), m);
  }

  /**
   After any honest run, one hidden cancel is enough for some honest, accepted next order to make the complete,
   undisturbed stream read as incorrect.
   */
  lemma HiddenCancelConvicts(xs: seq<Exchange>, x: Exchange, submission: string) returns (y: Exchange)
    requires HonestRun(xs + [x]) && NoHiddenCancel(xs) && HidesCancel(After(xs), x)
    ensures y.attempt.request.NewOrder? && y.Result().Ok? && HonestRun(xs + [x] + [y])
    ensures forall endAt, received ::
      SameEvents(received, Stream(submission, Attempts(xs + [x] + [y]), endAt)) ==> Finalize(received) == Incorrect
  {
    hide Lockstep, Honest, Next, HidesCancel, VerdictOf, AttemptLog, Ended, Finalize, WorldOk, Stream, Fold, FoldOn;
    assert (xs + [x])[..|xs|] == xs;
    var log := RunLog(submission, Attempts(xs));
    var st, w, n := Fold(log), After(xs), |log|;
    RunInLockstep(xs, submission);
    HonestWorldOk(xs);
    HonestWorldOk(xs + [x]);
    y := HiddenRunConvicts(st, w, x, submission, n);
    assert (xs + [x] + [y])[..|xs| + 1] == xs + [x];
    forall endAt, received | SameEvents(received, Stream(submission, Attempts(xs + [x] + [y]), endAt))
      ensures Finalize(received) == Incorrect
    {
      WholeStreamVerdict(xs + [x] + [y], submission, endAt, received);
      HiddenHasNoFills(w, x);
      TwoMore(xs, x, y, submission, endAt);
    }
  }

  lemma HiddenHasNoFills(w: World, x: Exchange)
    requires HidesCancel(w, x)
    ensures TradesOf(x.attempt.response) == []
  {
  }

  /** The stream of a run and two more exchanges, folded piece by piece. */
  lemma TwoMore(xs: seq<Exchange>, x: Exchange, y: Exchange, submission: string, endAt: int)
    requires TradesOf(x.attempt.response) == []
    ensures var log := RunLog(submission, Attempts(xs));
      var n := |log|;
      var log2 := AttemptLog(submission, y.attempt, n + 2);
      Fold(Stream(submission, Attempts(xs + [x] + [y]), endAt))
        == Ended(FoldOn(FoldOn(Fold(log), AttemptLog(submission, x.attempt, n + 1)), log2), submission, endAt, n + 1 + |log2|)
  {
    hide Step, IntentEvent, Fold, FoldOn, AttemptLog, Attempts, RunLog;
    var log := RunLog(submission, Attempts(xs));
    var n := |log|;
    AttemptsSnoc(xs, x);
    AttemptsSnoc(xs + [x], y);
    RunLogSnoc(submission, Attempts(xs), x.attempt);
    RunLogSnoc(submission, Attempts(xs) + [x.attempt], y.attempt);
    var log1 := AttemptLog(submission, x.attempt, n + 1);
    var log2 := AttemptLog(submission, y.attempt, n + 2);
    AttemptNumbered(submission, x.attempt, n + 1);
    FoldConcat(log, log1);
    FoldConcat(log + log1, log2);
    var end := EndEvent(submission, endAt, n + 2 + |log2|);
    FoldConcat(log + log1 + log2, [end]);
    FoldOnOne(Fold(log + log1 + log2), end);
  }

  lemma AttemptsSnoc(xs: seq<Exchange>, x: Exchange)
    ensures Attempts(xs + [x]) == Attempts(xs) + [x.attempt]
  {
    assert (xs + [x])[..|xs|] == xs;
  }

  lemma RunLogSnoc(submission: string, attempts: seq<Attempt>, a: Attempt)
    ensures var log := RunLog(submission, attempts);
      RunLog(submission, attempts + [a]) == log + AttemptLog(submission, a, |log| + 1)
  {
    hide AttemptLog;
    var all := attempts + [a];
    assert all[..|all| - 1] == attempts && all[|all| - 1] == a;
  }

  // ----- the limit is exact -----

  ghost predicate PartOf(received: seq<Event>, s: seq<Event>) {
    forall e :: e in received ==> e in s
  }

  /** Whatever part of the run's stream arrives, in whatever order and however often, it is not judged incorrect. */
  ghost predicate NeverConvicted(xs: seq<Exchange>, submission: string) {
    forall endAt, received ::
      PartOf(received, Stream(submission, Attempts(xs), endAt)) ==> Finalize(received) != Incorrect
  }

  /** None of the exchanges `ys` that follow `xs` is a hidden cancel. */
  ghost predicate OpenSince(xs: seq<Exchange>, ys: seq<Exchange>) {
    ys == [] || (OpenSince(xs, ys[..|ys| - 1]) && !HidesCancel(After(xs + ys[..|ys| - 1]), ys[|ys| - 1]))
  }

  /** However the run goes on, honestly and without another hidden cancel, it is never judged incorrect. */
  ghost predicate SafeHenceforth(xs: seq<Exchange>, submission: string) {
    forall ys :: HonestRun(xs + ys) && OpenSince(xs, ys) ==> NeverConvicted(xs + ys, submission)
  }

  lemma {:induction false} OpenAllAlong(xs: seq<Exchange>, ys: seq<Exchange>)
    requires NoHiddenCancel(xs) && OpenSince(xs, ys)
    ensures NoHiddenCancel(xs + ys)
  {
    hide HidesCancel, After;
    if ys == [] {
      assert xs + ys == xs;
    } else {
      OpenAllAlong(xs, ys[..|ys| - 1]);
      assert (xs + ys)[..|xs + ys| - 1] == xs + ys[..|ys| - 1];
    }
  }

  /**
   The exclusion in the soundness theorem is exact: the first hidden cancel of an honest run is precisely what makes it
   possible that some honest continuation is judged incorrect.
   */
  lemma SafeIffNotHidden(xs: seq<Exchange>, x: Exchange, submission: string)
    requires HonestRun(xs + [x]) && NoHiddenCancel(xs)
    ensures SafeHenceforth(xs + [x], submission) <==> !HidesCancel(After(xs), x)
  {
    hide HonestRun, NoHiddenCancel, HidesCancel, NeverConvicted, OpenSince;
    if HidesCancel(After(xs), x) {
      var y := HiddenCancelConvicts(xs, x, submission);
      OrderIsOpen(xs + [x], y);
      WholeStreamConvicts(xs + [x] + [y], submission);
    } else {
      forall ys | HonestRun(xs + [x] + ys) && OpenSince(xs + [x], ys) ensures NeverConvicted(xs + [x] + ys, submission) {
        OneMoreOpen(xs, x);
        OpenAllAlong(xs + [x], ys);
        OpenIsNeverConvicted(xs + [x] + ys, submission);
      }
    }
  }

  lemma OrderIsOpen(xs: seq<Exchange>, y: Exchange)
    requires y.attempt.request.NewOrder?
    ensures OpenSince(xs, [y])
  {
    hide After;
    assert [y][..0] == [];
  }

  lemma OneMoreOpen(xs: seq<Exchange>, x: Exchange)
    requires NoHiddenCancel(xs) && !HidesCancel(After(xs), x)
    ensures NoHiddenCancel(xs + [x])
  {
    hide After, HidesCancel;
    assert (xs + [x])[..|xs|] == xs;
  }

  lemma WholeStreamConvicts(xs: seq<Exchange>, submission: string)
    requires forall endAt, received :: SameEvents(received, Stream(submission, Attempts(xs), endAt)) ==> Finalize(received) == Incorrect
    ensures !NeverConvicted(xs, submission)
  {
    hide Finalize, Stream;
    var s := Stream(submission, Attempts(xs), 0);
    assert SameEvents(s, s) && PartOf(s, s);
    assert Finalize(s) == Incorrect;
  }

  lemma OpenIsNeverConvicted(xs: seq<Exchange>, submission: string)
    requires HonestRun(xs) && NoHiddenCancel(xs)
    ensures NeverConvicted(xs, submission)
  {
    hide Finalize, Stream, HonestRun, NoHiddenCancel;
    forall endAt, received | PartOf(received, Stream(submission, Attempts(xs), endAt))
      ensures Finalize(received) != Incorrect
    {
      HonestIsNeverIncorrect(xs, submission, endAt, received);
    }
  }

  // ----- an instance -----

  /** An accepted sell order that rests ... */
  const SOLD := Exchange(Attempt(NewOrder("0-1", Sell, Limit, "T", 10, 1), Answered(200, true, 1, []), 0), true, 0)

  /** ... and its cancel, applied although the answer timed out. */
  const LOST_CANCEL := Exchange(Attempt(CancelRequest(1, "0-1"), TimedOut, 0), true, 0)

  const SOLD_BOOK := Book([], [Resting("0-1", 10, 1)], map["0-1" := Ref(Sell, 10)])

  lemma SoldRests()
    ensures Submit(EMPTY, "0-1", Sell, Limit, 10, 1) == SOLD_BOOK
    ensures SubmitTrades(EMPTY, "0-1", Sell, Limit, 10, 1) == []
  {
    assert EMPTY.live - {} == map[];
  }

  lemma SoldIsHonest()
    ensures Honest(GENESIS, SOLD)
    ensures Next(GENESIS, SOLD) == World(map["T" := SOLD_BOOK], map[1 := "0-1"], map["0-1" := "T"], {"0-1"}, {}, 0)
  {
    hide Submit, SubmitTrades;
    SoldRests();
    assert ResolveAll(GENESIS, 1, []) == [];
    assert BookFor(map[], "T") == EMPTY;
    assert SharesAgree([], []) && MakersAgree([], []) && PricesAgree([], []);
  }

  lemma LostCancelHides()
    ensures Honest(Next(GENESIS, SOLD), LOST_CANCEL) && HidesCancel(Next(GENESIS, SOLD), LOST_CANCEL)
  {
    hide Next, Honest;
    SoldIsHonest();
    LostCancelIsHonest(Next(GENESIS, SOLD));
  }

  lemma LostCancelIsHonest(w: World)
    ensures Honest(w, LOST_CANCEL)
  {
  }

  lemma SmallRun()
    ensures HonestRun([SOLD]) && NoHiddenCancel([SOLD]) && After([SOLD]) == Next(GENESIS, SOLD)
    ensures HonestRun([SOLD] + [LOST_CANCEL])
  {
    hide Honest, Next;
    assert [SOLD][..0] == [] && ([SOLD] + [LOST_CANCEL])[..1] == [SOLD];
    SoldIsHonest();
    assert After([SOLD]) == Next(GENESIS, SOLD);
    LostCancelHides();
  }

  /** The smallest honest run that ends in a hidden cancel; one more honest order and the checker convicts it. */
  lemma HiddenCancelHappens(submission: string) returns (y: Exchange)
    ensures HonestRun([SOLD] + [LOST_CANCEL]) && NoHiddenCancel([SOLD]) && HidesCancel(After([SOLD]), LOST_CANCEL)
    ensures HonestRun([SOLD] + [LOST_CANCEL] + [y])
    ensures !NeverConvicted([SOLD] + [LOST_CANCEL] + [y], submission)
  {
    hide HonestRun, NoHiddenCancel, After, NeverConvicted, HidesCancel, SameEvents, Stream, Finalize;
    SmallRun();
    LostCancelHides();
    y := HiddenCancelConvicts([SOLD], LOST_CANCEL, submission);
    WholeStreamConvicts([SOLD] + [LOST_CANCEL] + [y], submission);
  }
}
