/** What the writer's numbering buys the checker, whoever answered its requests, and what the end marker is for. */
module StreamComplete {
  import opened MarketTypes
  import opened RankedBook
  import opened BookLaws
  import opened Differential
  import opened Writer
  import opened ReplaySpec
  import opened ReplayLaws
  import opened Contestant
  import opened Soundness
  import opened SoundnessTheorems
  import opened HiddenCancel

  // ----- whose fills and whose intents a run records -----

  /** The ids under which fills are recorded; fills without an id are dropped by the checker. */
  function FillIds(attempts: seq<Attempt>): set<string> {
    set a | a in attempts && TradesOf(a.response) != [] && RequestId(a.request) != "" :: RequestId(a.request)
  }

  /** The ids of the accepted orders. */
  function AcceptedIds(attempts: seq<Attempt>): set<string> {
    set a | a in attempts && a.request.NewOrder? && OutcomeOf(a.response).Ok? :: a.request.orderId
  }

  /** Cancels answered with trades, by the text they were sent under, unless an accepted order has that very id. */
  function StrayCancels(attempts: seq<Attempt>): set<string> {
    (set a | a in attempts && a.request.CancelRequest? && TradesOf(a.response) != [] && a.request.targetText != "" :: a.request.targetText)
    - AcceptedIds(attempts)
  }

  lemma StrayIsUnaccepted(attempts: seq<Attempt>)
    ensures FillIds(attempts) - AcceptedIds(attempts) == StrayCancels(attempts)
  {
    forall id | id in FillIds(attempts) - AcceptedIds(attempts) ensures id in StrayCancels(attempts) {
      var a :| a in attempts && TradesOf(a.response) != [] && RequestId(a.request) == id;
      assert a.request.NewOrder? ==> id in AcceptedIds(attempts);
    }
    forall id | id in StrayCancels(attempts) ensures id in FillIds(attempts) - AcceptedIds(attempts) {
      var a :| a in attempts && a.request.CancelRequest? && TradesOf(a.response) != [] && a.request.targetText == id;
      assert RequestId(a.request) == id && id != "";
    }
  }

  function FillId(a: Attempt): set<string> {
    if TradesOf(a.response) != [] && RequestId(a.request) != "" then {RequestId(a.request)} else {}
  }

  function AcceptedId(a: Attempt): set<string> {
    if a.request.NewOrder? && OutcomeOf(a.response).Ok? then {a.request.orderId} else {}
  }

  lemma IdsSnoc(front: seq<Attempt>, a: Attempt)
    ensures FillIds(front + [a]) == FillIds(front) + FillId(a)
    ensures AcceptedIds(front + [a]) == AcceptedIds(front) + AcceptedId(a)
  {
    hide OutcomeOf, TradesOf, RequestId;
    var all := front + [a];
    assert forall b :: b in all <==> b in front || b == a;
  }

  lemma NotesKeepOrders(t: Tally, ev: Event)
    ensures Note(t, ev).expected == NoteUnknown(t, ev).expected == NoteAttempt(t).expected == t.expected
    ensures Note(t, ev).observed == NoteUnknown(t, ev).observed == NoteAttempt(t).observed == t.observed
  {
    hide MarkTaint;
  }

  lemma NoteIntentAddsOrder(t: Tally, ev: Event, trades: seq<Trade>)
    ensures NoteIntent(t, ev, trades).expected.Keys == t.expected.Keys + {ev.orderId} && NoteIntent(t, ev, trades).observed == t.observed
  {
  }

  /** An event other than a fill observes nothing, and expects something only of an accepted order. */
  lemma NonFillKeys(st: State, ev: Event)
    requires !ev.action.Fill? && !Duplicate(st.tally, ev)
    ensures var t := Step(st, ev, Everywhere).tally;
      t.observed == st.tally.observed && t.expected.Keys == st.tally.expected.Keys + (if AcceptedOrder(ev) then {ev.orderId} else {})
  {
    hide Submit, SubmitTrades, CancelIn, NoteUnknown, NoteAttempt, NoteIntent, Note;
    var t := Note(st.tally, ev);
    NotesKeepOrders(st.tally, ev);
    NotesKeepOrders(t, ev);
    if ev.action.Intent? {
      var b := BookFor(st.books, ev.ticker);
      NoteIntentAddsOrder(t, ev, SubmitTrades(b, ev.orderId, ev.action.side, ev.orderType, ev.price, ev.volume));
    }
  }

  lemma FillKeys(t: Tally, agg: string, serverId: nat, ts: seq<ParsedTrade>, n: nat)
    ensures var t' := WithFills(t, agg, serverId, ts, n);
      t'.expected == t.expected && t'.observed.Keys == t.observed.Keys + (if ts != [] && agg != "" then {agg} else {})
  {
    hide UpTo, Read;
  }

  lemma IntentIsAccepted(submission: string, a: Attempt, serverId: nat, seqNo: nat)
    ensures var ev := IntentEvent(submission, a, OutcomeOf(a.response), serverId, seqNo);
      && ev.seqNo == seqNo && !ev.action.Fill?
      && (AcceptedOrder(ev) <==> a.request.NewOrder? && OutcomeOf(a.response).Ok?)
      && (a.request.NewOrder? ==> ev.orderId == a.request.orderId)
  {
    hide OutcomeOf;
  }

  lemma AttemptKeys(st: State, submission: string, a: Attempt, n: nat)
    requires SeenTo(st.tally, n)
    ensures var t := FoldOn(st, AttemptLog(submission, a, n + 1)).tally;
      && t.observed.Keys == st.tally.observed.Keys + FillId(a)
      && t.expected.Keys == st.tally.expected.Keys + AcceptedId(a)
  {
    hide Step, UpTo, FoldOn, WithFills, OutcomeOf, TradesOf, IntentEvent, FillEvents, Process;
    var ev := IntentEvent(submission, a, OutcomeOf(a.response), ServerIdOf(a.response), n + 1);
    var serverId, ts := ServerIdOf(a.response), TradesOf(a.response);
    IntentIsAccepted(submission, a, serverId, n + 1);
    NoteFresh(st.tally, ev, n);
    NonFillKeys(st, ev);
    FoldOnOne(st, ev);
    FoldOnConcat(st, [ev], FillEvents(submission, a, serverId, ts, n + 2));
    StepSeen(st, ev, n);
    FillsFold(Step(st, ev, Everywhere), submission, a, serverId, ts, n + 1);
    FillKeys(Step(st, ev, Everywhere).tally, RequestId(a.request), serverId, ts, n + 1);
  }

  lemma StepSeen(st: State, ev: Event, n: nat)
    requires SeenTo(st.tally, n) && ev.seqNo == n + 1
    ensures SeenTo(Step(st, ev, Everywhere).tally, n + 1)
  {
    hide Process, UpTo;
    StepFresh(st, ev, n);
    ProcessKeeps(st.(tally := st.tally.(seen := UpTo(n + 1), maxSeq := n + 1)), ev, Everywhere);
  }

  lemma {:induction false} NumberedSeen(es: seq<Event>)
    requires Numbered(es, 1)
    ensures SeqNos(es) == UpTo(|es|)
  {
    UpToFacts(|es|);
    forall k | k in UpTo(|es|) ensures k in SeqNos(es) {
      assert es[k - 1] in es && es[k - 1].seqNo == k;
    }
  }

  lemma NumberedFold(es: seq<Event>)
    requires Numbered(es, 1)
    ensures SeenTo(Fold(es).tally, |es|) && Kept(Fold(es).tally)
  {
    hide Fold;
    FoldKeeps(es);
    NumberedSeen(es);
    UpToFacts(|es|);
    var t := Fold(es).tally;
    if |es| != 0 {
      assert |es| in t.seen;
    }
  }

  lemma {:induction false} RunKeys(submission: string, attempts: seq<Attempt>)
    ensures var t := Fold(RunLog(submission, attempts)).tally;
      t.observed.Keys == FillIds(attempts) && t.expected.Keys == AcceptedIds(attempts)
  {
    hide Step, AttemptLog, FillId, AcceptedId, FillIds, AcceptedIds;
    if attempts == [] {
      NoIds();
    } else {
      var front, a := attempts[..|attempts| - 1], attempts[|attempts| - 1];
      assert front + [a] == attempts;
      RunKeys(submission, front);
      var log := RunLog(submission, front);
      RunNumbered(submission, front);
      NumberedFold(log);
      AttemptKeys(Fold(log), submission, a, |log|);
      FoldConcat(log, AttemptLog(submission, a, |log| + 1));
      IdsSnoc(front, a);
    }
  }

  lemma NoIds()
    ensures FillIds([]) == {} && AcceptedIds([]) == {}
  {
  }

  /**
   On every uninterrupted run, honest or not, the complete stream in any order and multiplicity shows no gap, and its
   orphans are exactly the cancels answered with trades that no accepted order covers.
   */
  lemma WriterDischargesGap(submission: string, attempts: seq<Attempt>, endAt: int, received: seq<Event>)
    requires SameEvents(received, Stream(submission, attempts, endAt))
    ensures Gap(Fold(SortBySeq(received)).tally) == 0
    ensures Orphans(Fold(SortBySeq(received)).tally) == StrayCancels(attempts)
  {
    hide Fold, SortBySeq, FillIds, AcceptedIds, StrayCancels;
    var s := Stream(submission, attempts, endAt);
    StreamIsStrict(submission, attempts, endAt);
    StrictFoldsAsIs(s);
    FoldDependsOnSet(s, received);
    StreamNumbered(submission, attempts, endAt);
    NumberedFold(s);
    UpToFacts(|s|);
    StreamKeys(submission, attempts, endAt);
    StrayIsUnaccepted(attempts);
  }

  lemma StreamKeys(submission: string, attempts: seq<Attempt>, endAt: int)
    ensures var t := Fold(Stream(submission, attempts, endAt)).tally;
      t.observed.Keys == FillIds(attempts) && t.expected.Keys == AcceptedIds(attempts)
  {
    hide Fold, FillIds, AcceptedIds, Step;
    var log := RunLog(submission, attempts);
    var end := EndEvent(submission, endAt, |log| + 1);
    RunKeys(submission, attempts);
    RunNumbered(submission, attempts);
    NumberedFold(log);
    FoldConcat(log, [end]);
    FoldOnOne(Fold(log), end);
    NoteFresh(Fold(log).tally, end, |log|);
    NonFillKeys(Fold(log), end);
  }

  /** So there is no orphan exactly when no such cancel was sent, in particular when cancels are answered without trades. */
  lemma NoOrphanIff(submission: string, attempts: seq<Attempt>, endAt: int, received: seq<Event>)
    requires SameEvents(received, Stream(submission, attempts, endAt))
    ensures Orphans(Fold(SortBySeq(received)).tally) == {} <==>
      forall a :: a in attempts && a.request.CancelRequest? && TradesOf(a.response) != [] ==>
        a.request.targetText == "" || a.request.targetText in AcceptedIds(attempts)
  {
    hide Fold, SortBySeq, Stream, SameEvents, AcceptedIds, TradesOf;
    WriterDischargesGap(submission, attempts, endAt, received);
    forall a | a in attempts && a.request.CancelRequest? && TradesOf(a.response) != [] && a.request.targetText != ""
        && a.request.targetText !in AcceptedIds(attempts)
      ensures a.request.targetText in StrayCancels(attempts)
    {
    }
  }

  /** An instance: a lone cancel whose answer lists a trade makes an orphan of its own text. */
  lemma CancelWithTradesIsOrphan(endAt: int)
    ensures var a := Attempt(CancelRequest(7, "7"), Answered(200, true, 7, [ParsedTrade(7, 8, 10, 1, 0)]), 0);
      Orphans(Fold(SortBySeq(Stream("s", [a], endAt))).tally) == {"7"}
  {
    hide Fold, SortBySeq, Stream;
    var a := Attempt(CancelRequest(7, "7"), Answered(200, true, 7, [ParsedTrade(7, 8, 10, 1, 0)]), 0);
    assert SameEvents(Stream("s", [a], endAt), Stream("s", [a], endAt));
    WriterDischargesGap("s", [a], endAt, Stream("s", [a], endAt));
    assert a in [a] && a.request.targetText in StrayCancels([a]);
  }

  // ----- why the end marker matters -----

  lemma UnfilledDiverges(ts: seq<Trade>)
    requires ts != [] && forall i :: 0 <= i < |ts| ==> 0 < ts[i].qty
    ensures Diff(ts, []) == Incorrect
  {
    MakerHasVolume(ts, ts[0].maker);
    assert ts[0] in ts && ts[0].maker in Makers(ts);
    assert FilledWith([], ts[0].maker) == 0;
  }

  lemma IntentAlone(st: State, y: Exchange, submission: string, n: nat)
    requires SeenTo(st.tally, n) && y.Result().Ok? && y.attempt.request.NewOrder? && y.ServerId() != 0
    ensures var r := y.attempt.request;
      var trades := SubmitTrades(BookFor(st.books, r.ticker), r.orderId, r.side, r.otype, r.price, r.quantity);
      var t := Step(st, IntentEvent(submission, y.attempt, Ok, y.ServerId(), n + 1), Everywhere).tally;
      && OrderRecorded(st.tally, t, y, trades, n) && SeenTo(t, n + 1)
      && t.observed == st.tally.observed
  {
    hide Process, UpTo, Submit, SubmitTrades;
    var ev := IntentEvent(submission, y.attempt, Ok, y.ServerId(), n + 1);
    StepFresh(st, ev, n);
    IntentProcess(st.(tally := st.tally.(seen := UpTo(n + 1), maxSeq := n + 1)), ev);
  }

  lemma CutStateConvicts(st: State, w: World, y: Exchange, submission: string, n: nat)
    requires Lockstep(st, w, n) && WorldOk(w) && Honest(w, y) && w.dirty == {}
    requires y.Result().Ok? && y.attempt.request.NewOrder? && TrueTrades(w, y.attempt.request) != []
    ensures VerdictOf(Step(st, IntentEvent(submission, y.attempt, Ok, y.ServerId(), n + 1), Everywhere).tally) == Incorrect
  {
    hide Step, Agrees, AllKnown, Settled, TaintAgrees, SeenTo, Submit, SubmitTrades, Diff, VerdictOf, UpTo,
         OrderRecorded, LiveExact, Sound;
    var r := y.attempt.request;
    var b := BookFor(st.books, r.ticker);
    assert b == BookFor(w.books, r.ticker);
    BookForOk(w, r.ticker);
    IntentAlone(st, y, submission, n);
    var t := Step(st, IntentEvent(submission, y.attempt, Ok, y.ServerId(), n + 1), Everywhere).tally;
    var trades := SubmitTrades(b, r.orderId, r.side, r.otype, r.price, r.quantity);
    PositiveTrades(b, r.orderId, r.side, r.otype, r.price, r.quantity);
    UnfilledDiverges(trades);
    CutDiff(st.tally, w, y, t, trades, n);
    NothingExcuses(st.tally, w, y, t, trades, n, t, n + 1);
  }

  lemma CutDiff(t0: Tally, w: World, y: Exchange, t: Tally, trades: seq<Trade>, n: nat)
    requires IdsAgree(t0, w) && Kept(t0) && Honest(w, y) && y.attempt.request.NewOrder?
    requires OrderRecorded(t0, t, y, trades, n) && t.observed == t0.observed
    ensures DiffOf(t, y.attempt.request.orderId) == Diff(trades, [])
  {
    hide Diff, Agrees, AllKnown;
    assert y.attempt.request.orderId !in t0.observed;
  }

  /**
   The end marker carries the promise: cut the stream of an honest, lossless run just behind the intent of any order
   that trades, and the comparison alone would convict; for want of the marker the checker withholds judgement.
   */
  lemma CutStreamIsWithheld(xs: seq<Exchange>, y: Exchange, submission: string)
    requires HonestRun(xs + [y]) && NothingLost(xs)
    requires y.Result().Ok? && y.attempt.request.NewOrder? && TrueTrades(After(xs), y.attempt.request) != []
    ensures var log := RunLog(submission, Attempts(xs));
      var cut := log + [IntentEvent(submission, y.attempt, Ok, y.ServerId(), |log| + 1)];
      ReplayVerdict(cut) == Incorrect && Finalize(cut) == Unverified
  {
    hide Lockstep, Honest, Next, VerdictOf, Step, WorldOk, SortBySeq, Fold, FoldOn, RunLog, TrueTrades, Attempts,
         IntentEvent;
    assert (xs + [y])[..|xs|] == xs;
    var log := RunLog(submission, Attempts(xs));
    var ev := IntentEvent(submission, y.attempt, Ok, y.ServerId(), |log| + 1);
    var cut := log + [ev];
    NothingLostIsClean(xs);
    RunInLockstep(xs, submission);
    HonestWorldOk(xs);
    CutStateConvicts(Fold(log), After(xs), y, submission, |log|);
    FoldConcat(log, [ev]);
    FoldOnOne(Fold(log), ev);
    RunNumbered(submission, Attempts(xs));
    IntentIsNotEnd(submission, y.attempt, y.ServerId(), |log| + 1);
    NumberedFoldsAsIs(cut);
    LogHasNoEnd(submission, Attempts(xs));
  }

  lemma IntentIsNotEnd(submission: string, a: Attempt, serverId: nat, seqNo: nat)
    ensures !IntentEvent(submission, a, Ok, serverId, seqNo).endOfRun
    ensures IntentEvent(submission, a, Ok, serverId, seqNo).seqNo == seqNo
  {
  }

  lemma NumberedFoldsAsIs(es: seq<Event>)
    requires Numbered(es, 1)
    ensures Fold(SortBySeq(es)) == Fold(es)
  {
    hide Fold, SortBySeq;
    StrictFoldsAsIs(es);
  }
}
