/**
 The replay as it really runs: a cancel reaches the first book, in map order, that has the order, so one event list may
 allow several outcomes. What follows holds of each of them.
 */
module ReplayChoices {
  import opened MarketTypes
  import opened RankedBook
  import opened Differential
  import opened ReplaySpec
  import opened ReplayLaws
  import opened VerdictLaws

  lemma {:induction false} FoldPicksKeeps(es: seq<Event>, picks: seq<string>)
    requires |picks| == |es|
    ensures Kept(FoldPicks(es, picks).tally) && FoldPicks(es, picks).tally.seen == SeqNos(es)
  {
    hide Step;
    if es != [] {
      var front := es[..|es| - 1];
      FoldPicksKeeps(front, picks[..|es| - 1]);
      Unsnoc(es);
      SeqNosSnoc(front, es[|es| - 1]);
      StepKeeps(FoldPicks(front, picks[..|es| - 1]), es[|es| - 1], At(picks[|es| - 1]));
    }
  }

  // ----- the verdict on an event list -----

  /**
   However the books are walked, a replay is correct exactly when all recorded orders agree, no fill is orphaned, and
   there is nothing to judge or under 5% of the attempts are lost or missing.
   */
  lemma ReplayIsCorrectIff(es: seq<Event>, picks: seq<string>)
    requires |picks| == |es|
    ensures var t := FoldPicks(es, picks).tally;
      VerdictOf(t) == Correct <==>
        && (forall k :: 0 <= k < |t.aggressors| ==> DiffIs(t, k, Correct))
        && Orphans(t) == {}
        && ((t.attempts == 0 && Gap(t) == 0) || 20 * (t.unknown + Gap(t)) < t.attempts)
  {
    hide FoldPicks, VerdictOf, Diff, Gap;
    FoldPicksKeeps(es, picks);
    CorrectIff(FoldPicks(es, picks).tally);
  }

  /** It is incorrect exactly when some recorded order diverges and nothing on record could excuse it. */
  lemma ReplayIsIncorrectIff(es: seq<Event>, picks: seq<string>)
    requires |picks| == |es|
    ensures var t := FoldPicks(es, picks).tally;
      VerdictOf(t) == Incorrect <==> exists k :: 0 <= k < |t.aggressors| && CleanDivergence(t, k)
  {
    hide FoldPicks, VerdictOf, CleanDivergence;
    IncorrectIff(FoldPicks(es, picks).tally);
  }

  /** Holes below the highest number, whatever the walk. */
  lemma ReplayCountsHoles(es: seq<Event>, picks: seq<string>)
    requires |picks| == |es|
    ensures var t := FoldPicks(es, picks).tally; Gap(t) == |UpTo(t.maxSeq) - SeqNos(es)|
  {
    hide FoldPicks, Gap, UpTo;
    FoldPicksKeeps(es, picks);
    GapCountsHoles(FoldPicks(es, picks).tally);
  }

  /**
   An event without a number of its own changes nothing at all when it is an end marker, has an action the replay does not
   know, or is a fill that names no aggressor; and neither does a redelivery, whatever it says.
   */
  lemma NothingToReplay(es: seq<Event>, picks: seq<string>, ev: Event, pick: string)
    requires |picks| == |es|
    requires (ev.seqNo != 0 && ev.seqNo in FoldPicks(es, picks).tally.seen)
      || (ev.seqNo == 0
          && (ev.endOfRun
              || (ev.outcome.Ok? && (ev.action.OtherAction? || (ev.action.Fill? && ev.aggressorOrderId == "")))))
    ensures FoldPicks(es + [ev], picks + [pick]) == FoldPicks(es, picks)
  {
    assert (es + [ev])[..|es|] == es && (picks + [pick])[..|es|] == picks;
  }

  // ----- some walk is always possible -----

  lemma {:induction false} PicksExist(es: seq<Event>) returns (picks: seq<string>)
    ensures |picks| == |es| && PicksOk(es, picks)
  {
    hide PickOk;
    if es == [] {
      picks := [];
    } else {
      var front := PicksExist(es[..|es| - 1]);
      var pick := PickExists(FoldPicks(es[..|es| - 1], front), es[|es| - 1]);
      picks := front + [pick];
      assert picks[..|es| - 1] == front;
    }
  }

  lemma PickExists(st: State, ev: Event) returns (pick: string)
    ensures PickOk(st, ev, pick)
  {
    pick := "";
    if Cancels(st.tally, ev) && exists t :: LiveIn(st.books, t, st.tally.serverToBot[ev.cancelTargetId]) {
      pick :| LiveIn(st.books, pick, st.tally.serverToBot[ev.cancelTargetId]);
    }
  }

  lemma SomeVerdict(es: seq<Event>) returns (v: Verdict)
    ensures MayFinalize(es, v)
  {
    hide HasEnd, SortBySeq, FoldPicks, PicksOk, VerdictOf;
    v := Unverified;
    if HasEnd(es) {
      var picks := PicksExist(SortBySeq(es));
      v := VerdictOf(FoldPicks(SortBySeq(es), picks).tally);
      assert Reaches(SortBySeq(es), picks, v);
    }
  }

  // ----- redelivery and reordering, whatever the walk -----

  /** The choices made at first deliveries. */
  function DedupPicks(es: seq<Event>, picks: seq<string>): (ps: seq<string>)
    requires |picks| == |es|
    ensures |ps| == |Dedup(es)|
  {
    if es == [] then []
    else
      var front, last := es[..|es| - 1], es[|es| - 1];
      var before := DedupPicks(front, picks[..|es| - 1]);
      if last.seqNo != 0 && last.seqNo in SeqNos(front) then before else before + [picks[|es| - 1]]
  }

  /** The same choices again, with an idle one at each redelivery. */
  function SpreadPicks(es: seq<Event>, ps: seq<string>): (picks: seq<string>)
    requires |ps| == |Dedup(es)|
    ensures |picks| == |es|
  {
    if es == [] then []
    else
      var front, last := es[..|es| - 1], es[|es| - 1];
      if last.seqNo != 0 && last.seqNo in SeqNos(front) then SpreadPicks(front, ps) + [""]
      else SpreadPicks(front, ps[..|ps| - 1]) + [ps[|ps| - 1]]
  }

  lemma {:induction false} DedupSpread(es: seq<Event>, ps: seq<string>)
    requires |ps| == |Dedup(es)|
    ensures DedupPicks(es, SpreadPicks(es, ps)) == ps
  {
    if es != [] {
      var front, last := es[..|es| - 1], es[|es| - 1];
      var picks := SpreadPicks(es, ps);
      if last.seqNo != 0 && last.seqNo in SeqNos(front) {
        DedupSpread(front, ps);
        assert picks[..|es| - 1] == SpreadPicks(front, ps);
      } else {
        DedupSpread(front, ps[..|ps| - 1]);
        assert picks[..|es| - 1] == SpreadPicks(front, ps[..|ps| - 1]);
      }
    }
  }

  /** A redelivery neither changes the state nor offers a choice. */
  lemma {:induction false} DedupFoldsPicks(es: seq<Event>, picks: seq<string>)
    requires |picks| == |es|
    ensures FoldPicks(Dedup(es), DedupPicks(es, picks)) == FoldPicks(es, picks)
    ensures PicksOk(Dedup(es), DedupPicks(es, picks)) <==> PicksOk(es, picks)
  {
    hide Step, PickOk;
    if es != [] {
      var front, last := es[..|es| - 1], es[|es| - 1];
      var pick := picks[|es| - 1];
      DedupFoldsPicks(front, picks[..|es| - 1]);
      FoldPicksKeeps(front, picks[..|es| - 1]);
      var st := FoldPicks(front, picks[..|es| - 1]);
      if last.seqNo != 0 && last.seqNo in SeqNos(front) {
        DuplicateIsSkipped(st, last, At(pick));
        DuplicateHasNoChoice(st, last, pick);
      } else {
        PicksSnoc(Dedup(front), DedupPicks(front, picks[..|es| - 1]), last, pick);
      }
    }
  }

  lemma DuplicateHasNoChoice(st: State, ev: Event, pick: string)
    requires Duplicate(st.tally, ev)
    ensures PickOk(st, ev, pick)
  {
  }

  lemma PicksSnoc(es: seq<Event>, picks: seq<string>, ev: Event, pick: string)
    requires |picks| == |es|
    ensures FoldPicks(es + [ev], picks + [pick]) == Step(FoldPicks(es, picks), ev, At(pick))
    ensures PicksOk(es + [ev], picks + [pick]) <==> PicksOk(es, picks) && PickOk(FoldPicks(es, picks), ev, pick)
  {
    hide Step, PickOk;
    assert (es + [ev])[..|es|] == es && (picks + [pick])[..|es|] == picks;
  }

  lemma {:induction false} ReachesDedup(es: seq<Event>, v: Verdict)
    ensures (exists picks :: Reaches(es, picks, v)) <==> (exists ps :: Reaches(Dedup(es), ps, v))
  {
    hide FoldPicks, PicksOk, VerdictOf;
    if picks :| Reaches(es, picks, v) {
      DedupFoldsPicks(es, picks);
      assert Reaches(Dedup(es), DedupPicks(es, picks), v);
    }
    if ps :| Reaches(Dedup(es), ps, v) {
      DedupSpread(es, ps);
      DedupFoldsPicks(es, SpreadPicks(es, ps));
      assert Reaches(es, SpreadPicks(es, ps), v);
    }
  }

  /**
   The verdicts an event list allows are a matter of its set of events alone: permuting it, redelivering parts of it
   and meeting equal sequence numbers in another order neither adds a verdict nor takes one away.
   */
  lemma PossibleVerdictsDependOnSet(a: seq<Event>, b: seq<Event>, v: Verdict)
    requires PositiveSeqs(a) && Consistent(a) && SameEvents(a, b)
    ensures MayFinalize(a, v) <==> MayFinalize(b, v)
  {
    hide SortBySeq, Reaches;
    SameFirstDeliveries(a, b);
    ReachesDedup(SortBySeq(a), v);
    ReachesDedup(SortBySeq(b), v);
    assert HasEnd(a) <==> HasEnd(b);
  }

  // ----- what taints a ticker -----

  /** An attempt on a named ticker whose outcome the writer never learnt. */
  predicate LossOn(e: Event, ticker: string, before: nat) {
    !e.endOfRun && e.outcome.Unknown? && ticker != "" && e.ticker == ticker && e.seqNo < before
  }

  ghost predicate LossIn(es: seq<Event>, ticker: string, before: nat) {
    exists e :: e in es && LossOn(e, ticker, before)
  }

  lemma NotesKeepTaint(t: Tally, ev: Event)
    ensures Note(t, ev).firstUnverifiable == NoteAttempt(t).firstUnverifiable == NoteFill(t, ev).firstUnverifiable == t.firstUnverifiable
    ensures NoteUnknown(t, ev).firstUnverifiable == MarkTaint(t.firstUnverifiable, ev.ticker, ev.seqNo)
  {
  }

  lemma NoteIntentKeepsTaint(t: Tally, ev: Event, trades: seq<Trade>)
    ensures NoteIntent(t, ev, trades).firstUnverifiable == t.firstUnverifiable
  {
  }

  lemma StepTaints(st: State, ev: Event, rule: CancelRule, ticker: string, before: nat)
    requires !Duplicate(st.tally, ev)
    ensures TaintedAt(Step(st, ev, rule).tally.firstUnverifiable, ticker, before)
      <==> TaintedAt(st.tally.firstUnverifiable, ticker, before) || LossOn(ev, ticker, before)
  {
    hide Submit, SubmitTrades, CancelIn, Note, NoteUnknown, NoteAttempt, NoteIntent, NoteFill, MarkTaint, TaintedAt;
    var t := Note(st.tally, ev);
    NotesKeepTaint(st.tally, ev);
    NotesKeepTaint(t, ev);
    MarkTaintFacts(t.firstUnverifiable, ev.ticker, ev.seqNo, ticker, before);
    if AcceptedOrder(ev) {
      var b := BookFor(st.books, ev.ticker);
      NoteIntentKeepsTaint(t, ev, SubmitTrades(b, ev.orderId, ev.action.side, ev.orderType, ev.price, ev.volume));
    }
  }

  /** A ticker is tainted at a point exactly when some processed event before it is a loss on that ticker. */
  lemma {:induction false} TaintIsLoss(es: seq<Event>, picks: seq<string>, ticker: string, before: nat)
    requires |picks| == |es|
    ensures TaintedAt(FoldPicks(es, picks).tally.firstUnverifiable, ticker, before) <==> LossIn(Dedup(es), ticker, before)
  {
    hide Step, TaintedAt, LossOn;
    if es == [] {
      NoTaintAtStart(ticker, before);
    } else {
      var front, last := es[..|es| - 1], es[|es| - 1];
      var st, rule := FoldPicks(front, picks[..|es| - 1]), At(picks[|es| - 1]);
      TaintIsLoss(front, picks[..|es| - 1], ticker, before);
      FoldPicksKeeps(front, picks[..|es| - 1]);
      if last.seqNo != 0 && last.seqNo in SeqNos(front) {
        DuplicateIsSkipped(st, last, rule);
      } else {
        StepTaints(st, last, rule, ticker, before);
        assert forall e :: e in Dedup(front) + [last] <==> e in Dedup(front) || e == last;
      }
    }
  }

  lemma NoTaintAtStart(ticker: string, before: nat)
    ensures !TaintedAt(START.firstUnverifiable, ticker, before)
  {
  }
}
