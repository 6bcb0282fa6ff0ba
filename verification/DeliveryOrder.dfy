/**
 What the writer's batches do to the end marker. Each batch is published orders first, so the trades of the last one come
 behind the marker; and a worker stopped in the middle of an attempt leaves a number unused.
 */
module DeliveryOrder {
  import opened MarketTypes
  import opened RankedBook
  import opened Differential
  import opened Writer
  import opened ReplaySpec
  import opened ReplayLaws
  import opened Contestant
  import opened SoundnessTheorems
  import opened HiddenCancel
  import opened OrderlyRuns
  import opened PartialRuns
  import EngineSpec
  import PipelineTheorems

  // ----- where the marker stands -----

  /**
   The marker ends what the worker delivers, as the pipeline would have it, exactly when the last batch has no trades and
   nothing delivered carries a later timestamp.
   */
  lemma EndsRunIff(log: seq<Event>, front: seq<Event>, end: Event, tail: seq<Event>)
    requires Unmarked(front, log) && Unmarked(tail, log) && end.endOfRun
    ensures PipelineTheorems.EndsRun(front + [end] + tail) <==> tail == [] && forall e :: e in front ==> e.timestamp <= end.timestamp
  {
    var all := front + [end] + tail;
    if tail == [] {
      assert all == front + [end];
      assert forall e :: e in front ==> exists i :: 0 <= i < |front| && front[i] == e;
      assert forall i :: 0 <= i < |front| ==> all[i] == front[i];
    } else {
      assert all[|all| - 1] == tail[|tail| - 1] && tail[|tail| - 1] in tail;
    }
  }

  /** With trades behind the marker, what the engine has when it reads the marker is what came before them. */
  lemma {:induction false} JudgedIsFront(log: seq<Event>, front: seq<Event>, end: Event, tail: seq<Event>)
    requires Unmarked(front, log) && end.endOfRun
    ensures EngineSpec.UpToEnd(front + [end] + tail) == front + [end]
  {
    if tail == [] {
      assert front + [end] + tail == front + [end];
      assert !HasEnd(front);
      EngineSpec.UpToEndGrows(front, end);
      EngineSpec.UpToEndFacts(front);
    } else {
      var shorter := tail[..|tail| - 1];
      JudgedIsFront(log, front, end, shorter);
      assert front + [end] + tail == front + [end] + shorter + [tail[|tail| - 1]];
      assert end in front + [end] + shorter;
      EngineSpec.UpToEndGrows(front + [end] + shorter, tail[|tail| - 1]);
    }
  }

  // ----- a run that was cut off -----

  lemma CutNumbers(submission: string, attempts: seq<Attempt>, endAt: int, e: Event)
    requires e in CutStream(submission, attempts, endAt)
    ensures e.seqNo != |RunLog(submission, attempts)| + 1
    ensures e.endOfRun ==> e.seqNo == |RunLog(submission, attempts)| + 2
  {
    RunNumbered(submission, attempts);
    LogHasNoEnd(submission, attempts);
    var log := RunLog(submission, attempts);
    if e in log {
      var i :| 0 <= i < |log| && log[i] == e;
    }
  }

  /** A run stopped in the middle of an attempt is never judged incorrect, whoever answered it and whatever arrives. */
  lemma CutRunIsNeverIncorrect(submission: string, attempts: seq<Attempt>, endAt: int, received: seq<Event>)
    requires PartOf(received, CutStream(submission, attempts, endAt))
    ensures Finalize(received) != Incorrect
  {
    hide VerdictOf, Fold, SortBySeq, CutStream, RunLog, GlobalTaint;
    if HasEnd(received) {
      var t := Fold(SortBySeq(received)).tally;
      var n := |RunLog(submission, attempts)|;
      SortAscends(received);
      FoldKeeps(SortBySeq(received));
      var end :| end in received && end.endOfRun;
      CutNumbers(submission, attempts, endAt, end);
      assert end in SortBySeq(received) && n + 2 in SeqNos(SortBySeq(received));
      if !GlobalTaint(t) {
        NoGlobalTaint(t);
        NoGapMeansAllSeen(t);
        UpToFacts(t.maxSeq);
        assert n + 1 in SeqNos(SortBySeq(received));
        var e :| e in SortBySeq(received) && e.seqNo == n + 1;
        CutNumbers(submission, attempts, endAt, e);
      }
      GlobalTaintExcuses(t);
    }
  }

  // ----- missing fills are noticed -----

  /** The quantity some fill records report. */
  function Reported(es: seq<Event>): int {
    if es == [] then 0 else Reported(es[..|es| - 1]) + es[|es| - 1].volume
  }

  lemma {:induction false} ReadingsTotal(w: World, es: seq<Event>)
    ensures FilledTotal(Readings(w, es)) == Reported(es)
  {
    if es != [] {
      ReadingsTotal(w, es[..|es| - 1]);
      FilledSnoc(Readings(w, es[..|es| - 1]), Reading(w, es[|es| - 1]), "");
    }
  }

  lemma {:induction false} TotalConcat(a: seq<ObservedFill>, b: seq<ObservedFill>)
    ensures FilledTotal(a + b) == FilledTotal(a) + FilledTotal(b)
  {
    if a == [] {
      assert a + b == b;
    } else {
      assert (a + b)[1..] == a[1..] + b;
      TotalConcat(a[1..], b);
    }
  }

  predicate NoneReportedNegative(es: seq<Event>) {
    forall e :: e in es ==> 0 <= e.volume
  }

  lemma {:induction false} GotReports(es: seq<Event>, received: seq<Event>, e: Event)
    requires NoneReportedNegative(es)
    ensures 0 <= Reported(Got(es, received)) <= Reported(es)
    ensures e in es && e !in received && 0 < e.volume ==> Reported(Got(es, received)) < Reported(es)
  {
    if es != [] {
      assert es[|es| - 1] in es && forall x :: x in es <==> x in es[..|es| - 1] || x == es[|es| - 1];
      GotReports(es[..|es| - 1], received, e);
      var g := Got(es[..|es| - 1], received);
      assert (g + [es[|es| - 1]])[..|g|] == g;
      assert g + [] == g;
    }
  }

  lemma {:induction false} GotAll(es: seq<Event>, received: seq<Event>)
    requires forall e :: e in es ==> e in received
    ensures Got(es, received) == es
  {
    if es != [] {
      assert es == es[..|es| - 1] + [es[|es| - 1]];
      GotAll(es[..|es| - 1], received);
    }
  }

  ghost predicate HasIntents(log: seq<Event>, received: seq<Event>) {
    forall e :: e in log && !e.action.Fill? ==> e in received
  }

  lemma PartsOfLog(submission: string, xs: seq<Exchange>)
    requires xs != []
    ensures var front, x := xs[..|xs| - 1], xs[|xs| - 1];
      RunLog(submission, Attempts(xs))
        == RunLog(submission, Attempts(front)) + [IntentOf(submission, front, x)] + FillsOf(submission, front, x)
    ensures !IntentOf(submission, xs[..|xs| - 1], xs[|xs| - 1]).action.Fill?
  {
    hide RunLog, IntentEvent, FillEvents, AttemptLog;
    var front, x := xs[..|xs| - 1], xs[|xs| - 1];
    assert front + [x] == xs;
    AttemptsSnoc(front, x);
    RunLogSnoc(submission, Attempts(front), x.attempt);
    LogOf(submission, front, x);
    var log := RunLog(submission, Attempts(front));
    assert log + ([IntentOf(submission, front, x)] + FillsOf(submission, front, x))
      == log + [IntentOf(submission, front, x)] + FillsOf(submission, front, x);
    IntentIsOrder(submission, x.attempt, x.Result(), ServerIdOf(x.attempt.response), |log| + 1);
  }

  lemma {:induction false} HeardAlike(submission: string, xs: seq<Exchange>, a: seq<Event>, b: seq<Event>)
    requires HasIntents(RunLog(submission, Attempts(xs)), a) && HasIntents(RunLog(submission, Attempts(xs)), b)
    ensures Heard(submission, xs, a) == Heard(submission, xs, b)
  {
    hide RunLog, IntentOf, FillsOf;
    if xs != [] {
      PartsOfLog(submission, xs);
      var front, x := xs[..|xs| - 1], xs[|xs| - 1];
      assert forall e :: e in RunLog(submission, Attempts(front)) ==> e in RunLog(submission, Attempts(xs));
      HeardAlike(submission, front, a, b);
      assert IntentOf(submission, front, x) in RunLog(submission, Attempts(xs));
    }
  }

  /** Fills that did not arrive lower what was witnessed of their order, and of no other. */
  lemma {:induction false} WitnessedLess(submission: string, xs: seq<Exchange>, received: seq<Event>,
                        full: seq<Event>, missing: Event)
    requires var log := RunLog(submission, Attempts(xs));
      HasIntents(log, received) && NoneReportedNegative(log) && forall e :: e in log ==> e in full
    requires 0 < missing.volume && missing !in received && missing.action.Fill?
    ensures var a := missing.aggressorOrderId;
      var w, all := FilledTotal(Witnessed(submission, xs, received, a)), FilledTotal(Witnessed(submission, xs, full, a));
      w <= all && (a != "" && missing in RunLog(submission, Attempts(xs)) ==> w < all)
  {
    hide RunLog, IntentOf, FillsOf, Heard, After, Readings, Reported, Got, RequestId, FilledTotal;
    if xs == [] {
      NothingLogged(submission);
    } else {
      var front, x := xs[..|xs| - 1], xs[|xs| - 1];
      var a := missing.aggressorOrderId;
      var log, logFront := RunLog(submission, Attempts(xs)), RunLog(submission, Attempts(front));
      PartsOfLog(submission, xs);
      var fs := FillsOf(submission, front, x);
      assert forall e :: e in logFront || e in fs ==> e in log;
      WitnessedLess(submission, front, received, full, missing);
      FillsName(submission, front, x);
      if a != "" && RequestId(x.attempt.request) == a {
        var v, w := After(Heard(submission, xs, received)), After(Heard(submission, xs, full));
        GotReports(fs, received, missing);
        GotAll(fs, full);
        ReadingsTotal(v, Got(fs, received));
        ReadingsTotal(w, fs);
        TotalConcat(Witnessed(submission, front, received, a), Readings(v, Got(fs, received)));
        TotalConcat(Witnessed(submission, front, full, a), Readings(w, Got(fs, full)));
      }
    }
  }

  lemma NothingLogged(submission: string)
    ensures RunLog(submission, Attempts([])) == []
  {
  }

  lemma FillsName(submission: string, front: seq<Exchange>, x: Exchange)
    ensures forall e :: e in FillsOf(submission, front, x) ==> e.action.Fill? && e.aggressorOrderId == RequestId(x.attempt.request)
  {
    hide RunLog, RequestId;
    FillsNumbered(submission, x.attempt, ServerIdOf(x.attempt.response), TradesOf(x.attempt.response),
                  |RunLog(submission, Attempts(front))| + 2);
  }

  /** In an honest run every fill names an order. */
  lemma {:induction false} HonestFillsName(submission: string, xs: seq<Exchange>, e: Event)
    requires HonestRun(xs) && e in RunLog(submission, Attempts(xs)) && e.action.Fill?
    ensures e.aggressorOrderId != ""
  {
    hide RunLog, IntentOf, FillsOf, Honest, After;
    if xs != [] {
      var front, x := xs[..|xs| - 1], xs[|xs| - 1];
      PartsOfLog(submission, xs);
      if e in RunLog(submission, Attempts(front)) {
        HonestFillsName(submission, front, e);
      } else {
        FillsName(submission, front, x);
        HonestNames(submission, front, x);
      }
    } else {
      NothingLogged(submission);
    }
  }

  lemma HonestNames(submission: string, front: seq<Exchange>, x: Exchange)
    requires Honest(After(front), x)
    ensures FillsOf(submission, front, x) != [] ==> RequestId(x.attempt.request) != ""
  {
    hide Agrees, AllKnown, TrueTrades, RunLog, After;
    FillsNumbered(submission, x.attempt, ServerIdOf(x.attempt.response), TradesOf(x.attempt.response),
                  |RunLog(submission, Attempts(front))| + 2);
  }

  lemma AgreeingTotals(exp: seq<Trade>, a: seq<ObservedFill>, b: seq<ObservedFill>)
    requires Agrees(exp, a) && Agrees(exp, b)
    ensures FilledTotal(a) == FilledTotal(b)
  {
    SharesGiveTotal(exp, a);
    SharesGiveTotal(exp, b);
  }

  lemma CheckedAt(submission: string, xs: seq<Exchange>, received: seq<Event>, a: string)
    requires AllChecked(submission, xs, received) && a in Accepted(Heard(submission, xs, received))
    ensures Agrees(Due(Heard(submission, xs, received), a), Witnessed(submission, xs, received, a))
  {
    hide Agrees, AllKnown, Accepted, Due, Witnessed, Heard;
  }

  lemma NamedAccepted(es: seq<Event>, hs: seq<Exchange>, e: Event)
    requires NoneOrphaned(es, hs) && e in es && !e.endOfRun && e.outcome.Ok? && e.action.Fill? && e.aggressorOrderId != ""
    ensures e.aggressorOrderId in Accepted(hs)
  {
    hide Accepted;
    assert e.aggressorOrderId in NamedByFills(es);
  }

  /**
   An honest run of which every request is on record but some fill is missing is neither passed nor failed: the checker
   withholds its verdict.
   */
  lemma MissingFillIsUnverified(xs: seq<Exchange>, submission: string, endAt: int, received: seq<Event>, missing: Event)
    requires HonestRun(xs) && NothingLost(xs) && PartOf(received, Stream(submission, Attempts(xs), endAt))
    requires HasIntents(Stream(submission, Attempts(xs), endAt), received)
    requires NoneReportedNegative(RunLog(submission, Attempts(xs)))
    requires missing in RunLog(submission, Attempts(xs)) && missing.action.Fill? && 0 < missing.volume && missing !in received
    requires !missing.endOfRun && missing.outcome.Ok?
    ensures Finalize(received) == Unverified
  {
    hide HonestRun, NothingLost, Finalize, RunLog, Got, AllChecked, NoneOrphaned, Heard, Witnessed, Due, Accepted,
         OrderlyRun,
         NoHiddenCancel, HasEnd, OnRecord, UnknownOnRecord, Agrees, FilledTotal;
    var s := Stream(submission, Attempts(xs), endAt);
    assert SameEvents(s, s) && PartOf(s, s);
    HonestRunIsOrderly(xs);
    NothingLostIsClean(xs);
    HonestIsNeverIncorrect(xs, submission, endAt, received);
    CompleteHonestRunPasses(xs, submission, endAt, s);
    PartIsCorrectIff(submission, xs, endAt, s);
    PartIsCorrectIff(submission, xs, endAt, received);
    if Finalize(received) == Correct {
      var a := missing.aggressorOrderId;
      HonestFillsName(submission, xs, missing);
      HeardAlike(submission, xs, received, s);
      NamedAccepted(s, Heard(submission, xs, s), missing);
      CheckedAt(submission, xs, s, a);
      CheckedAt(submission, xs, received, a);
      AgreeingTotals(Due(Heard(submission, xs, s), a), Witnessed(submission, xs, received, a), Witnessed(submission, xs, s, a));
      WitnessedLess(submission, xs, received, s, missing);
    }
  }

  /** The stream has each of its events once, so what stands behind the marker does not stand before it. */
  lemma BehindOnly(s: seq<Event>, front: seq<Event>, end: Event, tail: seq<Event>, e: Event)
    requires StrictlyAscending(s) && multiset(front + [end] + tail) == multiset(s) && e in tail
    ensures e in s && e !in front + [end]
  {
    var before := front + [end];
    assert multiset(before + tail) == multiset(before) + multiset(tail);
    assert e in multiset(tail) && multiset(s)[e] == multiset(before)[e] + multiset(tail)[e];
    OnceEach(s, e);
  }

  lemma {:induction false} OnceEach(s: seq<Event>, e: Event)
    requires StrictlyAscending(s)
    ensures multiset(s)[e] <= 1
  {
    if s != [] {
      FrontIsOlder(s);
      var front, last := s[..|s| - 1], s[|s| - 1];
      OnceEach(front, e);
      assert multiset(s) == multiset(front) + multiset{last};
      if e == last {
        assert e !in front && multiset(front)[e] == 0;
      }
    }
  }

  lemma AllButTail(s: seq<Event>, front: seq<Event>, end: Event, tail: seq<Event>)
    requires multiset(front + [end] + tail) == multiset(s) && OnlyFills(tail)
    ensures PartOf(front + [end], s) && HasIntents(s, front + [end])
    ensures forall e :: e in tail ==> e in s
  {
    var before := front + [end];
    assert multiset(before + tail) == multiset(before) + multiset(tail);
    forall e | e in before ensures e in s {
      assert e in multiset(before) && e in multiset(s);
    }
    forall e | e in tail ensures e in s {
      assert e in multiset(tail) && e in multiset(s);
    }
    forall e | e in s && !e.action.Fill? ensures e in before {
      assert e in multiset(s) && e in multiset(before + tail);
      assert e in before + tail;
    }
  }

  /**
   So when the worker delivers an honest, lossless run in full, but its last batch has a trade of some quantity, then what
   the engine has when it reads the marker is judged `unverified`.
   */
  lemma TradesBehindMarker(xs: seq<Exchange>, submission: string, endAt: int, front: seq<Event>, end: Event,
                        tail: seq<Event>,
                           e: Event)
    requires HonestRun(xs) && NothingLost(xs) && NoneReportedNegative(RunLog(submission, Attempts(xs)))
    requires var log := Stream(submission, Attempts(xs), endAt);
      && multiset(front + [end] + tail) == multiset(log) && end.endOfRun
      && Unmarked(front, log) && Unmarked(tail, log) && OnlyFills(tail)
    requires e in tail && 0 < e.volume
    ensures Finalize(EngineSpec.UpToEnd(front + [end] + tail)) == Unverified
  {
    hide HonestRun, NothingLost, Finalize, RunLog, NoneReportedNegative, EngineSpec.UpToEnd;
    var s := Stream(submission, Attempts(xs), endAt);
    JudgedIsFront(s, front, end, tail);
    StreamIsStrict(submission, Attempts(xs), endAt);
    BehindOnly(s, front, end, tail, e);
    AllButTail(s, front, end, tail);
    FillIsLive(submission, Attempts(xs), e);
    MissingFillIsUnverified(xs, submission, endAt, front + [end], e);
  }

  lemma {:induction false} FillIsLive(submission: string, attempts: seq<Attempt>, e: Event)
    requires e in RunLog(submission, attempts) && e.action.Fill?
    ensures !e.endOfRun && e.outcome.Ok?
  {
    hide IntentEvent, FillEvents;
    var front, a := attempts[..|attempts| - 1], attempts[|attempts| - 1];
    if e in RunLog(submission, front) {
      FillIsLive(submission, front, e);
    } else {
      var n := |RunLog(submission, front)|;
      IntentIsOrder(submission, a, OutcomeOf(a.response), ServerIdOf(a.response), n + 1);
      FillsNumbered(submission, a, ServerIdOf(a.response), TradesOf(a.response), n + 2);
      var fs := FillEvents(submission, a, ServerIdOf(a.response), TradesOf(a.response), n + 2);
      assert e in fs;
      var i :| 0 <= i < |fs| && fs[i] == e;
    }
  }
}
