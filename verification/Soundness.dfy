/**
 The checker's promise to contestants: one that matches by the golden rules is never judged incorrect, whatever is
 lost, reordered or redelivered on the way. The proof runs the contestant's books and the checker's side by side.
 */
module Soundness {
  import opened MarketTypes
  import opened RankedBook
  import opened BookLaws
  import opened Differential
  import opened Writer
  import opened ReplaySpec
  import opened ReplayLaws
  import opened Contestant

  // ----- folding a log piece by piece -----

  function FoldOn(st: State, es: seq<Event>): State {
    if es == [] then st else Step(FoldOn(st, es[..|es| - 1]), es[|es| - 1], Everywhere)
  }

  lemma {:induction false} FoldConcat(a: seq<Event>, b: seq<Event>)
    ensures Fold(a + b) == FoldOn(Fold(a), b)
  {
    hide Step;
    if b == [] {
      assert a + b == a;
    } else {
      assert (a + b)[..|a + b| - 1] == a + b[..|b| - 1];
      FoldConcat(a, b[..|b| - 1]);
    }
  }

  lemma {:induction false} FoldOnConcat(st: State, a: seq<Event>, b: seq<Event>)
    ensures FoldOn(st, a + b) == FoldOn(FoldOn(st, a), b)
  {
    hide Step;
    if b == [] {
      assert a + b == a;
    } else {
      assert (a + b)[..|a + b| - 1] == a + b[..|b| - 1];
      FoldOnConcat(st, a, b[..|b| - 1]);
    }
  }

  // ----- lockstep -----

  /** Exactly the numbers 1..n have been seen. */
  ghost predicate SeenTo(t: Tally, n: nat) {
    t.seen == UpTo(n) && t.maxSeq == n
  }

  /** On every ticker without a loss the checker's book is the contestant's. */
  ghost predicate CleanBooksAgree(st: State, w: World) {
    forall t :: t !in w.dirty ==> BookFor(st.books, t) == BookFor(w.books, t)
  }

  ghost predicate TaintAgrees(t: Tally, w: World, n: nat) {
    && t.firstUnverifiable.Keys == w.dirty && "" !in w.dirty
    && (forall k :: k in t.firstUnverifiable ==> t.firstUnverifiable[k] <= n)
  }

  /** The checker's id map is part of the contestant's, and knows every order of every clean ticker. */
  ghost predicate IdsAgree(t: Tally, w: World) {
    && (forall s :: s in t.serverToBot ==> s in w.owner && w.owner[s] == t.serverToBot[s])
    && (forall s :: s in w.owner && w.owner[s] in w.home && w.home[w.owner[s]] !in w.dirty ==> s in t.serverToBot)
    && t.aggTicker.Keys <= w.used
    && t.observed.Keys <= t.expected.Keys
  }

  /** A judged order either agrees or stands behind a loss on its ticker. */
  ghost predicate SettledOne(t: Tally, a: string) {
    DiffOf(t, a) == Correct || TaintedAt(t.firstUnverifiable, TickerOf(t, a), SeqOf(t, a))
  }

  ghost predicate Settled(t: Tally, except: set<string>) {
    forall a :: a in t.aggressors && a !in except ==> SettledOne(t, a)
  }

  ghost predicate Lockstep(st: State, w: World, n: nat) {
    && Kept(st.tally) && SeenTo(st.tally, n)
    && CleanBooksAgree(st, w) && TaintAgrees(st.tally, w, n) && IdsAgree(st.tally, w)
    && Settled(st.tally, {})
    && st.tally.unknown == w.lost
  }

  // ----- a fresh sequence number -----

  lemma NoteFresh(t: Tally, ev: Event, n: nat)
    requires SeenTo(t, n) && ev.seqNo == n + 1
    ensures !Duplicate(t, ev) && SeenTo(Note(t, ev), n + 1)
    ensures Note(t, ev) == t.(seen := UpTo(n + 1), maxSeq := n + 1)
  {
    UpToFacts(n);
  }

  lemma StepFresh(st: State, ev: Event, n: nat)
    requires SeenTo(st.tally, n) && ev.seqNo == n + 1
    ensures Step(st, ev, Everywhere) == Process(st.(tally := st.tally.(seen := UpTo(n + 1), maxSeq := n + 1)), ev, Everywhere)
  {
    hide Process;
    NoteFresh(st.tally, ev, n);
  }

  // ----- the fills of one order -----

  /** A reported trade as the checker records it when its event arrives. */
  function ReadOne(t: Tally, serverId: nat, p: ParsedTrade): ObservedFill {
    var m := MatchedId(p, serverId);
    ObservedFill(if m in t.serverToBot then t.serverToBot[m] else "", m in t.serverToBot, m, p.qty, p.price)
  }

  function Read(t: Tally, serverId: nat, ts: seq<ParsedTrade>): seq<ObservedFill> {
    if ts == [] then [] else Read(t, serverId, ts[..|ts| - 1]) + [ReadOne(t, serverId, ts[|ts| - 1])]
  }

  function WithFills(t: Tally, agg: string, serverId: nat, ts: seq<ParsedTrade>, n: nat): Tally {
    if ts == [] then t
    else t.(seen := UpTo(n + |ts|), maxSeq := n + |ts|,
            observed := if agg == "" then t.observed else t.observed[agg := ObservedOf(t, agg) + Read(t, serverId, ts)])
  }

  lemma OneFill(st: State, submission: string, a: Attempt, serverId: nat, p: ParsedTrade, n: nat)
    requires SeenTo(st.tally, n)
    ensures Step(st, FillEvent(submission, a, serverId, p, n + 1), Everywhere)
         == st.(tally := WithFills(st.tally, RequestId(a.request), serverId, [p], n))
  {
    hide UpTo;
    var agg := RequestId(a.request);
    StepFresh(st, FillEvent(submission, a, serverId, p, n + 1), n);
    assert Read(st.tally, serverId, [p]) == [ReadOne(st.tally, serverId, p)] by {
      assert [p][..0] == [];
    }
  }

  lemma WithFillsSnoc(t: Tally, agg: string, serverId: nat, ts: seq<ParsedTrade>, p: ParsedTrade, n: nat)
    requires SeenTo(t, n)
    ensures SeenTo(WithFills(t, agg, serverId, ts, n), n + |ts|)
    ensures WithFills(WithFills(t, agg, serverId, ts, n), agg, serverId, [p], n + |ts|)
         == WithFills(t, agg, serverId, ts + [p], n)
  {
    hide UpTo, Read;
    if ts == [] {
      assert ts + [p] == [p];
    } else if agg != "" {
      var before := ObservedOf(t, agg);
      var t' := WithFills(t, agg, serverId, ts, n);
      ReadSnoc(t, t', serverId, ts, p);
      var all := before + Read(t, serverId, ts + [p]);
      assert before + Read(t, serverId, ts) + Read(t', serverId, [p]) == all;
      assert t'.observed[agg := all] == t.observed[agg := all];
    }
  }

  lemma ReadSnoc(t: Tally, t': Tally, serverId: nat, ts: seq<ParsedTrade>, p: ParsedTrade)
    requires t'.serverToBot == t.serverToBot
    ensures Read(t, serverId, ts + [p]) == Read(t, serverId, ts) + Read(t', serverId, [p])
  {
    assert (ts + [p])[..|ts|] == ts;
    assert [p][..0] == [];
  }

  lemma {:induction false} FillsFold(st: State, submission: string, a: Attempt, serverId: nat, ts: seq<ParsedTrade>,
                        n: nat)
    requires SeenTo(st.tally, n)
    ensures FoldOn(st, FillEvents(submission, a, serverId, ts, n + 1))
         == st.(tally := WithFills(st.tally, RequestId(a.request), serverId, ts, n))
  {
    hide Step, UpTo, FillEvent, WithFills, SeenTo;
    if ts == [] {
      NoFills(st.tally, RequestId(a.request), serverId, n);
    } else {
      var front, last := ts[..|ts| - 1], ts[|ts| - 1];
      FillsFold(st, submission, a, serverId, front, n);
      WithFillsSnoc(st.tally, RequestId(a.request), serverId, front, last, n);
      assert front + [last] == ts;
      var st' := st.(tally := WithFills(st.tally, RequestId(a.request), serverId, front, n));
      OneFill(st', submission, a, serverId, last, n + |front|);
      var fs := FillEvents(submission, a, serverId, ts, n + 1);
      assert fs[..|fs| - 1] == FillEvents(submission, a, serverId, front, n + 1);
    }
  }

  lemma NoFills(t: Tally, agg: string, serverId: nat, n: nat)
    ensures WithFills(t, agg, serverId, [], n) == t
  {
  }

  // ----- what each kind of attempt does to the lockstep -----

  ghost predicate SameOrders(t: Tally, t': Tally) {
    && t'.expected == t.expected && t'.observed == t.observed && t'.aggressors == t.aggressors
    && t'.aggTicker == t.aggTicker && t'.aggSeq == t.aggSeq && t'.serverToBot == t.serverToBot
  }

  lemma SettledMono(t: Tally, t': Tally)
    requires Settled(t, {}) && SameOrders(t, t')
    requires forall k :: k in t.firstUnverifiable ==>
               k in t'.firstUnverifiable && t'.firstUnverifiable[k] <= t.firstUnverifiable[k]
    ensures Settled(t', {})
  {
    hide Diff;
    forall a | a in t'.aggressors ensures SettledOne(t', a) {
      assert SettledOne(t, a);
    }
  }

  /** An applied request can only change books of tickers it names; a lost cancel, only ones already dirty. */
  lemma LostRequestKeepsCleanBooks(w: World, x: Exchange)
    requires WorldOk(w) && Honest(w, x) && x.Result().Unknown? && !HidesCancel(w, x)
    ensures forall t :: t !in Next(w, x).dirty ==> BookFor(Next(w, x).books, t) == BookFor(w.books, t)
  {
    hide Submit, Agrees, AllKnown, Sound, LiveExact;
  }

  lemma LostRequestKeepsIds(t: Tally, w: World, x: Exchange)
    requires WorldOk(w) && Honest(w, x) && x.Result().Unknown? && IdsAgree(t, w)
    ensures IdsAgree(t, Next(w, x))
  {
    hide Submit, CancelOrder, Agrees, AllKnown, Sound, LiveExact, BookFor;
  }

  lemma UnknownKeeps(st: State, w: World, x: Exchange, submission: string, n: nat)
    requires Lockstep(st, w, n) && WorldOk(w) && Honest(w, x) && x.Result().Unknown? && !HidesCancel(w, x)
    ensures Lockstep(FoldOn(st, AttemptLog(submission, x.attempt, n + 1)), Next(w, x), n + 1)
  {
    var ev := IntentEvent(submission, x.attempt, Unknown, 0, n + 1);
    var w' := Next(w, x);
    OnlyIntent(st, submission, x.attempt, n);
    StepFresh(st, ev, n);
    var st' := Step(st, ev, Everywhere);
    StepKeeps(st, ev, Everywhere);
    UnknownBookkeeping(st, w, x, submission, n);
    assert CleanBooksAgree(st', w') by {
      LostRequestKeepsCleanBooks(w, x);
    }
    assert IdsAgree(st'.tally, w') by {
      LostRequestKeepsIds(st.tally, w, x);
    }
  }

  lemma OnlyIntent(st: State, submission: string, a: Attempt, n: nat)
    requires TradesOf(a.response) == []
    ensures AttemptLog(submission, a, n + 1) == [IntentEvent(submission, a, OutcomeOf(a.response), ServerIdOf(a.response), n + 1)]
    ensures FoldOn(st, AttemptLog(submission, a, n + 1))
         == Step(st, IntentEvent(submission, a, OutcomeOf(a.response), ServerIdOf(a.response), n + 1), Everywhere)
  {
    hide Step;
    var e := IntentEvent(submission, a, OutcomeOf(a.response), ServerIdOf(a.response), n + 1);
    assert [e][..0] == [];
    assert AttemptLog(submission, a, n + 1) == [e];
  }

  lemma NextFacts(w: World, x: Exchange)
    ensures var r := x.attempt.request;
      && Next(w, x).dirty == w.dirty + (if x.Result().Unknown? && r.NewOrder? then {r.ticker} else {})
      && Next(w, x).used == w.used + (if r.NewOrder? then {r.orderId} else {})
      && Next(w, x).lost == w.lost + (if x.Result().Unknown? then 1 else 0)
  {
  }

  lemma TaintGrows(t: Tally, w: World, n: nat, ticker: string)
    requires TaintAgrees(t, w, n)
    ensures var first := MarkTaint(t.firstUnverifiable, ticker, n + 1);
      && first.Keys == w.dirty + (if ticker == "" then {} else {ticker})
      && (forall k :: k in first ==> first[k] <= n + 1)
      && (forall k :: k in t.firstUnverifiable ==> k in first && first[k] <= t.firstUnverifiable[k])
  {
  }

  lemma UnknownBookkeeping(st: State, w: World, x: Exchange, submission: string, n: nat)
    requires Lockstep(st, w, n) && Honest(w, x) && x.Result().Unknown?
    ensures var st' := Step(st, IntentEvent(submission, x.attempt, Unknown, 0, n + 1), Everywhere);
      && st'.books == st.books && SameOrders(st.tally, st'.tally)
      && SeenTo(st'.tally, n + 1) && TaintAgrees(st'.tally, Next(w, x), n + 1)
      && Settled(st'.tally, {}) && st'.tally.unknown == Next(w, x).lost
  {
    hide Submit, SubmitTrades, CancelIn, Diff, Agrees, AllKnown, UpTo, Settled, Kept, CancelOrder, Next, MarkTaint;
    var ev := IntentEvent(submission, x.attempt, Unknown, 0, n + 1);
    StepFresh(st, ev, n);
    TaintGrows(st.tally, w, n, ev.ticker);
    NextFacts(w, x);
    SettledMono(st.tally, Step(st, ev, Everywhere).tally);
  }

  /** The contestant's identities and losses are unchanged. */
  ghost predicate SameLosses(w: World, w': World) {
    w'.dirty == w.dirty && w'.owner == w.owner && w'.home == w.home && w.used <= w'.used && w'.lost == w.lost
  }

  lemma QuietTally(t: Tally, t': Tally, w: World, w': World, n: nat)
    requires SameOrders(t, t') && t'.firstUnverifiable == t.firstUnverifiable && t'.unknown == t.unknown == w.lost
    requires TaintAgrees(t, w, n) && IdsAgree(t, w) && Settled(t, {}) && SameLosses(w, w')
    ensures TaintAgrees(t', w', n + 1) && IdsAgree(t', w') && Settled(t', {}) && t'.unknown == w'.lost
  {
    SettledMono(t, t');
  }

  lemma RejectedStep(st: State, a: Attempt, submission: string, n: nat)
    requires SeenTo(st.tally, n)
    ensures Step(st, IntentEvent(submission, a, Rejected, 0, n + 1), Everywhere)
         == st.(tally := st.tally.(seen := UpTo(n + 1), maxSeq := n + 1, attempts := st.tally.attempts + 1))
  {
    hide Process, UpTo;
    var ev := IntentEvent(submission, a, Rejected, 0, n + 1);
    StepFresh(st, ev, n);
    RejectedProcess(st.(tally := st.tally.(seen := UpTo(n + 1), maxSeq := n + 1)), ev);
  }

  lemma RejectedProcess(st: State, ev: Event)
    requires !ev.endOfRun && ev.outcome.Rejected?
    ensures Process(st, ev, Everywhere) == st.(tally := NoteAttempt(st.tally))
  {
  }

  lemma RejectedKeeps(st: State, w: World, x: Exchange, submission: string, n: nat)
    requires Lockstep(st, w, n) && Honest(w, x) && x.Result().Rejected?
    ensures Lockstep(FoldOn(st, AttemptLog(submission, x.attempt, n + 1)), Next(w, x), n + 1)
  {
    hide Step, Agrees, AllKnown, UpTo, Settled, Kept, IdsAgree, TaintAgrees, IntentEvent;
    var ev := IntentEvent(submission, x.attempt, Rejected, 0, n + 1);
    OnlyIntent(st, submission, x.attempt, n);
    RejectedStep(st, x.attempt, submission, n);
    StepKeeps(st, ev, Everywhere);
    QuietTally(st.tally, Step(st, ev, Everywhere).tally, w, Next(w, x), n);
  }

  /** Both sides find the same order on a clean ticker, or neither touches a clean ticker. */
  lemma CancelKeepsCleanBooks(st: State, w: World, x: Exchange)
    requires WorldOk(w) && Orderly(w, x) && x.Result().Ok? && x.attempt.request.CancelRequest?
    requires CleanBooksAgree(st, w) && IdsAgree(st.tally, w)
    ensures var target := x.attempt.request.targetId;
      var books := if target != 0 && target in st.tally.serverToBot
        then CancelIn(st.books, st.tally.serverToBot[target], Everywhere) else st.books;
      CleanBooksAgree(State(books, st.tally), Next(w, x))
  {
    hide Sound, LiveExact;
    var target := x.attempt.request.targetId;
    var books := if target != 0 && target in st.tally.serverToBot
      then CancelIn(st.books, st.tally.serverToBot[target], Everywhere) else st.books;
    var w' := Next(w, x);
    forall t | t !in w'.dirty ensures BookFor(books, t) == BookFor(w'.books, t) {
      CancelOnTicker(st, w, x, t);
    }
  }

  lemma CancelOnTicker(st: State, w: World, x: Exchange, t: string)
    requires WorldOk(w) && Orderly(w, x) && x.Result().Ok? && x.attempt.request.CancelRequest?
    requires CleanBooksAgree(st, w) && IdsAgree(st.tally, w) && t !in w.dirty
    ensures var target := x.attempt.request.targetId;
      var books := if target != 0 && target in st.tally.serverToBot
        then CancelIn(st.books, st.tally.serverToBot[target], Everywhere) else st.books;
      BookFor(books, t) == BookFor(Next(w, x).books, t)
  {
    hide Sound, LiveExact;
    var target := x.attempt.request.targetId;
    assert BookFor(st.books, t) == BookFor(w.books, t);
    EmptyCancel();
    if target in w.owner {
      var bot := w.owner[target];
      assert target != 0 && bot in w.home;
      if w.home[bot] == t {
        assert target in st.tally.serverToBot;
      } else {
        assert !LiveIn(w.books, t, bot);
        assert CancelOrder(BookFor(w.books, t), bot) == BookFor(w.books, t);
      }
    }
  }

  lemma EmptyCancel()
    ensures forall bot :: CancelOrder(EMPTY, bot) == EMPTY
  {
  }

  function CancelledBooks(st: State, target: nat): map<string, Book> {
    if target != 0 && target in st.tally.serverToBot
    then CancelIn(st.books, st.tally.serverToBot[target], Everywhere)
    else st.books
  }

  lemma CancelStep(st: State, a: Attempt, submission: string, serverId: nat, n: nat)
    requires SeenTo(st.tally, n) && a.request.CancelRequest?
    ensures Step(st, IntentEvent(submission, a, Ok, serverId, n + 1), Everywhere)
         == State(CancelledBooks(st, a.request.targetId),
                  st.tally.(seen := UpTo(n + 1), maxSeq := n + 1, attempts := st.tally.attempts + 1))
  {
    hide Process, UpTo, CancelIn;
    var ev := IntentEvent(submission, a, Ok, serverId, n + 1);
    StepFresh(st, ev, n);
    CancelProcess(st.(tally := st.tally.(seen := UpTo(n + 1), maxSeq := n + 1)), ev);
  }

  lemma CancelProcess(st: State, ev: Event)
    requires !ev.endOfRun && ev.outcome.Ok? && ev.action.Cancel?
    ensures Process(st, ev, Everywhere) == State(CancelledBooks(st, ev.cancelTargetId), NoteAttempt(st.tally))
  {
  }

  lemma CancelSameLosses(w: World, x: Exchange)
    requires x.attempt.request.CancelRequest? && !x.Result().Unknown?
    ensures SameLosses(w, Next(w, x))
  {
    hide CancelOrder;
  }

  lemma CancelKeeps(st: State, w: World, x: Exchange, submission: string, n: nat)
    requires Lockstep(st, w, n) && WorldOk(w) && Honest(w, x) && x.Result().Ok? && x.attempt.request.CancelRequest?
    ensures Lockstep(FoldOn(st, AttemptLog(submission, x.attempt, n + 1)), Next(w, x), n + 1)
  {
    hide Step, Agrees, AllKnown, UpTo, Settled, Kept, IdsAgree, TaintAgrees, IntentEvent, CancelIn, Next, WorldOk,
         SameLosses;
    var ev := IntentEvent(submission, x.attempt, Ok, ServerIdOf(x.attempt.response), n + 1);
    OnlyIntent(st, submission, x.attempt, n);
    CancelStep(st, x.attempt, submission, ServerIdOf(x.attempt.response), n);
    StepKeeps(st, ev, Everywhere);
    CancelKeepsCleanBooks(st, w, x);
    CancelSameLosses(w, x);
    QuietTally(st.tally, Step(st, ev, Everywhere).tally, w, Next(w, x), n);
  }

  // ----- an accepted order -----

  lemma {:induction false} ReadIsResolve(t: Tally, w: World, serverId: nat, ts: seq<ParsedTrade>)
    requires forall i :: 0 <= i < |ts| ==>
      var m := MatchedId(ts[i], serverId);
      m in t.serverToBot && m in w.owner && t.serverToBot[m] == w.owner[m]
    ensures Read(t, serverId, ts) == ResolveAll(w, serverId, ts)
  {
    if ts != [] {
      ReadIsResolve(t, w, serverId, ts[..|ts| - 1]);
    }
  }

  lemma {:induction false} ResolvedElement(w: World, serverId: nat, ts: seq<ParsedTrade>, i: nat)
    requires i < |ts|
    ensures Resolve(w, serverId, ts[i]) in ResolveAll(w, serverId, ts)
  {
    if i < |ts| - 1 {
      ResolvedElement(w, serverId, ts[..|ts| - 1], i);
    }
  }

  /** On a clean ticker every reported maker is an order the checker has on file. */
  lemma ReportedMakersOnFile(t: Tally, w: World, x: Exchange, i: nat)
    requires WorldOk(w) && Honest(w, x) && x.Result().Ok? && x.attempt.request.NewOrder?
    requires IdsAgree(t, w) && x.attempt.request.ticker !in w.dirty
    requires i < |TradesOf(x.attempt.response)|
    ensures var m := MatchedId(TradesOf(x.attempt.response)[i], x.ServerId());
      m in t.serverToBot && m in w.owner && t.serverToBot[m] == w.owner[m]
  {
    hide Sound, LiveExact, SubmitTrades, VolumeAgainst, FilledWith, FirstWith;
    var r := x.attempt.request;
    var ts := TradesOf(x.attempt.response);
    var f := Resolve(w, x.ServerId(), ts[i]);
    ResolvedElement(w, x.ServerId(), ts, i);
    var m := MatchedId(ts[i], x.ServerId());
    assert f.makerKnown;
    assert w.owner[m] in Makers(TrueTrades(w, r));
    BookForOk(w, r.ticker);
    MakersAreLive(BookFor(w.books, r.ticker), r.orderId, r.side, r.otype, r.price, r.quantity, w.owner[m]);
    EmptyLive();
    assert LiveIn(w.books, r.ticker, w.owner[m]);
  }

  lemma CleanOrderAgrees(st: State, w: World, x: Exchange, t: Tally)
    requires WorldOk(w) && Honest(w, x) && x.Result().Ok? && x.attempt.request.NewOrder?
    requires CleanBooksAgree(st, w) && IdsAgree(st.tally, w) && x.attempt.request.ticker !in w.dirty
    requires t.serverToBot == st.tally.serverToBot[x.ServerId() := x.attempt.request.orderId]
    ensures var r := x.attempt.request;
      Diff(SubmitTrades(BookFor(st.books, r.ticker), r.orderId, r.side, r.otype, r.price, r.quantity),
           Read(t, x.ServerId(), TradesOf(x.attempt.response))) == Correct
  {
    hide SubmitTrades, Agrees, AllKnown, WorldOk;
    var ts := TradesOf(x.attempt.response);
    forall i | 0 <= i < |ts|
      ensures var m := MatchedId(ts[i], x.ServerId());
        m in t.serverToBot && m in w.owner && t.serverToBot[m] == w.owner[m]
    {
      ReportedMakersOnFile(st.tally, w, x, i);
    }
    ReadIsResolve(t, w, x.ServerId(), ts);
  }

  /** The tally once the intent and all the fills of an accepted order are in. */
  function AfterOrder(st: State, x: Exchange, submission: string, n: nat): Tally {
    var r := x.attempt.request;
    var ev := IntentEvent(submission, x.attempt, Ok, x.ServerId(), n + 1);
    var t1 := NoteIntent(st.tally.(seen := UpTo(n + 1), maxSeq := n + 1), ev,
      SubmitTrades(BookFor(st.books, ev.ticker), ev.orderId, if r.NewOrder? then r.side else Buy, ev.orderType, ev.price, ev.volume));
    WithFills(t1, RequestId(r), x.ServerId(), TradesOf(x.attempt.response), n + 1)
  }

  lemma IntentProcess(st: State, ev: Event)
    requires !ev.endOfRun && ev.outcome.Ok? && ev.action.Intent?
    ensures var b := BookFor(st.books, ev.ticker);
      Process(st, ev, Everywhere)
        == State(st.books[ev.ticker := Submit(b, ev.orderId, ev.action.side, ev.orderType, ev.price, ev.volume)],
                 NoteIntent(st.tally, ev, SubmitTrades(b, ev.orderId, ev.action.side, ev.orderType, ev.price, ev.volume)))
  {
    hide Submit, SubmitTrades;
  }

  lemma IntentSeen(t: Tally, ev: Event, trades: seq<Trade>, n: nat)
    requires SeenTo(t, n)
    ensures SeenTo(NoteIntent(t, ev, trades), n)
  {
  }

  lemma AttemptSplits(submission: string, x: Exchange, n: nat)
    requires x.Result().Ok?
    ensures var fs := FillEvents(submission, x.attempt, x.ServerId(), TradesOf(x.attempt.response), n + 2);
      && AttemptLog(submission, x.attempt, n + 1) == [IntentEvent(submission, x.attempt, Ok, x.ServerId(), n + 1)] + fs
      && |fs| == |TradesOf(x.attempt.response)|
  {
    hide IntentEvent, FillEvent;
    FillsNumbered(submission, x.attempt, x.ServerId(), TradesOf(x.attempt.response), n + 2);
  }

  lemma FoldOnOne(st: State, ev: Event)
    ensures FoldOn(st, [ev]) == Step(st, ev, Everywhere)
  {
    hide Step;
    assert [ev][..0] == [];
  }

  lemma OrderFolds(st: State, w: World, x: Exchange, submission: string, n: nat)
    requires SeenTo(st.tally, n) && Orderly(w, x) && x.Result().Ok? && x.attempt.request.NewOrder?
    ensures var r := x.attempt.request;
      FoldOn(st, AttemptLog(submission, x.attempt, n + 1))
        == State(st.books[r.ticker := Submit(BookFor(st.books, r.ticker), r.orderId, r.side, r.otype, r.price, r.quantity)],
                 AfterOrder(st, x, submission, n))
    ensures SeenTo(AfterOrder(st, x, submission, n), n + |AttemptLog(submission, x.attempt, n + 1)|)
  {
    hide Submit, SubmitTrades, UpTo, FillEvent, WithFills, Process, Step, FoldOn, NoteIntent, AttemptLog;
    var ts := TradesOf(x.attempt.response);
    var ev := IntentEvent(submission, x.attempt, Ok, x.ServerId(), n + 1);
    var fs := FillEvents(submission, x.attempt, x.ServerId(), ts, n + 2);
    AttemptSplits(submission, x, n);
    FoldOnConcat(st, [ev], fs);
    FoldOnOne(st, ev);
    StepFresh(st, ev, n);
    var st0 := st.(tally := st.tally.(seen := UpTo(n + 1), maxSeq := n + 1));
    IntentProcess(st0, ev);
    IntentSeen(st0.tally, ev, SubmitTrades(BookFor(st.books, ev.ticker), ev.orderId, ev.action.side, ev.orderType, ev.price, ev.volume), n + 1);
    var st1 := Step(st, ev, Everywhere);
    FillsFold(st1, submission, x.attempt, x.ServerId(), ts, n + 1);
    WithFillsSeen(st1.tally, RequestId(x.attempt.request), x.ServerId(), ts, n + 1);
  }

  lemma WithFillsSeen(t: Tally, agg: string, serverId: nat, ts: seq<ParsedTrade>, n: nat)
    requires SeenTo(t, n)
    ensures SeenTo(WithFills(t, agg, serverId, ts, n), n + |ts|)
  {
  }

  ghost predicate OrderRecorded(t: Tally, t': Tally, x: Exchange, trades: seq<Trade>, n: nat)
    requires x.attempt.request.NewOrder?
  {
    var r := x.attempt.request;
    && t'.serverToBot == t.serverToBot[x.ServerId() := r.orderId]
    && t'.expected == t.expected[r.orderId := trades]
    && t'.aggressors == t.aggressors + [r.orderId]
    && t'.aggTicker == t.aggTicker[r.orderId := r.ticker]
    && t'.aggSeq == t.aggSeq[r.orderId := n + 1]
    && t'.firstUnverifiable == t.firstUnverifiable
    && t'.unknown == t.unknown
    && t'.observed.Keys <= t.observed.Keys + {r.orderId}
    && (forall a :: a != r.orderId ==> ObservedOf(t', a) == ObservedOf(t, a))
  }

  lemma AfterOrderFacts(st: State, x: Exchange, submission: string, n: nat)
    requires x.Result().Ok? && x.attempt.request.NewOrder? && x.attempt.request.orderId != "" && x.ServerId() != 0
    ensures var r := x.attempt.request;
      var trades := SubmitTrades(BookFor(st.books, r.ticker), r.orderId, r.side, r.otype, r.price, r.quantity);
      var t' := AfterOrder(st, x, submission, n);
      && OrderRecorded(st.tally, t', x, trades, n)
      && exists t1: Tally :: t1.serverToBot == t'.serverToBot
           && ObservedOf(t', r.orderId) == ObservedOf(st.tally, r.orderId) + Read(t1, x.ServerId(), TradesOf(x.attempt.response))
  {
    hide SubmitTrades, UpTo, MatchedId;
    var r := x.attempt.request;
    var ts := TradesOf(x.attempt.response);
    var ev := IntentEvent(submission, x.attempt, Ok, x.ServerId(), n + 1);
    var t1 := NoteIntent(st.tally.(seen := UpTo(n + 1), maxSeq := n + 1), ev,
      SubmitTrades(BookFor(st.books, ev.ticker), ev.orderId, r.side, ev.orderType, ev.price, ev.volume));
    var t' := AfterOrder(st, x, submission, n);
    assert t1.serverToBot == t'.serverToBot;
    if ts == [] {
      assert Read(t1, x.ServerId(), ts) == [];
      assert ObservedOf(st.tally, r.orderId) + [] == ObservedOf(st.tally, r.orderId);
    }
  }

  lemma OrderSettles(st: State, w: World, x: Exchange, t': Tally, n: nat)
    requires Lockstep(st, w, n) && WorldOk(w) && Honest(w, x) && x.Result().Ok? && x.attempt.request.NewOrder?
    requires var r := x.attempt.request;
      var trades := SubmitTrades(BookFor(st.books, r.ticker), r.orderId, r.side, r.otype, r.price, r.quantity);
      && OrderRecorded(st.tally, t', x, trades, n)
      && exists t1: Tally :: t1.serverToBot == t'.serverToBot
           && ObservedOf(t', r.orderId) == ObservedOf(st.tally, r.orderId) + Read(t1, x.ServerId(), TradesOf(x.attempt.response))
    ensures Settled(t', {})
  {
    hide SubmitTrades, Diff, Agrees, AllKnown, MatchedId, UpTo, CleanBooksAgree, SeenTo, WorldOk;
    var r := x.attempt.request;
    forall a | a in t'.aggressors ensures SettledOne(t', a) {
      if a == r.orderId {
        assert ObservedOf(st.tally, a) == [];
        if r.ticker !in w.dirty {
          var t1: Tally :| t1.serverToBot == t'.serverToBot
            && ObservedOf(t', a) == ObservedOf(st.tally, a) + Read(t1, x.ServerId(), TradesOf(x.attempt.response));
          assert [] + Read(t1, x.ServerId(), TradesOf(x.attempt.response)) == Read(t1, x.ServerId(), TradesOf(x.attempt.response));
          CleanOrderAgrees(st, w, x, t1);
        }
      } else {
        assert a in st.tally.aggressors;
        assert SettledOne(st.tally, a);
      }
    }
  }

  lemma OrderIds(t: Tally, w: World, x: Exchange, t': Tally, trades: seq<Trade>, n: nat)
    requires IdsAgree(t, w) && WorldOk(w) && Orderly(w, x) && x.Result().Ok? && x.attempt.request.NewOrder?
    requires OrderRecorded(t, t', x, trades, n)
    ensures IdsAgree(t', Next(w, x))
  {
    hide Submit, SubmitTrades, BooksOk, BookFor;
  }

  lemma OrderBooks(st: State, w: World, x: Exchange, t': Tally)
    requires CleanBooksAgree(st, w) && Orderly(w, x) && x.Result().Ok? && x.attempt.request.NewOrder?
    ensures var r := x.attempt.request;
      var books := st.books[r.ticker := Submit(BookFor(st.books, r.ticker), r.orderId, r.side, r.otype, r.price, r.quantity)];
      CleanBooksAgree(State(books, t'), Next(w, x))
  {
    hide Submit, SubmitTrades;
    var r := x.attempt.request;
    assert r.ticker !in w.dirty ==> BookFor(st.books, r.ticker) == BookFor(w.books, r.ticker);
    var books := st.books[r.ticker := Submit(BookFor(st.books, r.ticker), r.orderId, r.side, r.otype, r.price, r.quantity)];
    forall t | t !in Next(w, x).dirty ensures BookFor(books, t) == BookFor(Next(w, x).books, t) {
      assert BookFor(st.books, t) == BookFor(w.books, t);
    }
  }

  lemma OrderKeeps(st: State, w: World, x: Exchange, submission: string, n: nat)
    requires Lockstep(st, w, n) && WorldOk(w) && Honest(w, x) && x.Result().Ok? && x.attempt.request.NewOrder?
    ensures Lockstep(FoldOn(st, AttemptLog(submission, x.attempt, n + 1)), Next(w, x), n + |AttemptLog(submission, x.attempt, n + 1)|)
  {
    hide Submit, SubmitTrades, Agrees, AllKnown, UpTo, AttemptLog, AfterOrder, Kept, CleanBooksAgree, IdsAgree,
         Settled, SeenTo, Next, TaintAgrees, Honest, Orderly;
    var r := x.attempt.request;
    var t' := AfterOrder(st, x, submission, n);
    var trades := SubmitTrades(BookFor(st.books, r.ticker), r.orderId, r.side, r.otype, r.price, r.quantity);
    HonestIsOrderly(w, x);
    OrderlyOrder(w, x);
    OrderFolds(st, w, x, submission, n);
    FoldOnKeeps(st, AttemptLog(submission, x.attempt, n + 1));
    AfterOrderFacts(st, x, submission, n);
    OrderSettles(st, w, x, t', n);
    OrderIds(st.tally, w, x, t', trades, n);
    OrderBooks(st, w, x, t');
    OrderTaint(st.tally, w, x, t', n, n + |AttemptLog(submission, x.attempt, n + 1)|);
  }

  lemma OrderTaint(t: Tally, w: World, x: Exchange, t': Tally, n: nat, n': nat)
    requires TaintAgrees(t, w, n) && x.Result().Ok? && n <= n'
    requires t'.firstUnverifiable == t.firstUnverifiable && t'.unknown == t.unknown == w.lost
    ensures TaintAgrees(t', Next(w, x), n') && t'.unknown == Next(w, x).lost
  {
    hide Next;
    NextFacts(w, x);
    assert Next(w, x).dirty == w.dirty;
  }

  lemma OrderlyOrder(w: World, x: Exchange)
    requires Orderly(w, x) && x.Result().Ok? && x.attempt.request.NewOrder?
    ensures x.ServerId() != 0 && x.attempt.request.orderId != ""
  {
  }

  lemma {:induction false} FoldOnKeeps(st: State, es: seq<Event>)
    requires Kept(st.tally)
    ensures Kept(FoldOn(st, es).tally)
  {
    hide Step, Kept;
    if es != [] {
      FoldOnKeeps(st, es[..|es| - 1]);
      StepKeeps(FoldOn(st, es[..|es| - 1]), es[|es| - 1], Everywhere);
    }
  }
}
