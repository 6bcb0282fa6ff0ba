/** The soundness of the checker over whole runs, under loss, reordering and redelivery. */
module SoundnessTheorems {
  import opened MarketTypes
  import opened Differential
  import opened Writer
  import opened ReplaySpec
  import opened ReplayLaws
  import opened MapWalks
  import opened VerdictLaws
  import opened Contestant
  import opened Soundness

  lemma StepInLockstep(st: State, w: World, x: Exchange, submission: string, n: nat)
    requires Lockstep(st, w, n) && WorldOk(w) && Honest(w, x) && !HidesCancel(w, x)
    ensures Lockstep(FoldOn(st, AttemptLog(submission, x.attempt, n + 1)), Next(w, x), n + |AttemptLog(submission, x.attempt, n + 1)|)
  {
    hide Lockstep, Honest, HidesCancel, WorldOk, Next;
    match x.Result() {
      case Unknown =>
        UnknownKeeps(st, w, x, submission, n);
        OnlyIntent(st, submission, x.attempt, n);
      case Rejected =>
        RejectedKeeps(st, w, x, submission, n);
        OnlyIntent(st, submission, x.attempt, n);
      case Ok =>
        if x.attempt.request.NewOrder? {
          OrderKeeps(st, w, x, submission, n);
        } else {
          CancelKeeps(st, w, x, submission, n);
          CancelHasNoFills(w, x);
          OnlyIntent(st, submission, x.attempt, n);
        }
    }
  }

  lemma CancelHasNoFills(w: World, x: Exchange)
    requires Honest(w, x) && x.attempt.request.CancelRequest?
    ensures TradesOf(x.attempt.response) == []
  {
  }

  lemma StartInLockstep()
    ensures Lockstep(State(map[], START), GENESIS, 0)
  {
  }

  /** After any honest run the checker's clean books are the contestant's and every order is settled. */
  lemma {:induction false} RunInLockstep(xs: seq<Exchange>, submission: string)
    requires HonestRun(xs) && NoHiddenCancel(xs)
    ensures var log := RunLog(submission, Attempts(xs)); Lockstep(Fold(log), After(xs), |log|)
  {
    hide Lockstep, Honest, HidesCancel, Next, Step, AttemptLog;
    if xs == [] {
      StartInLockstep();
    } else {
      var front, x := xs[..|xs| - 1], xs[|xs| - 1];
      RunInLockstep(front, submission);
      HonestWorldOk(front);
      var log := RunLog(submission, Attempts(front));
      assert Attempts(xs)[..|Attempts(xs)| - 1] == Attempts(front);
      FoldConcat(log, AttemptLog(submission, x.attempt, |log| + 1));
      StepInLockstep(Fold(log), After(front), x, submission, |log|);
    }
  }

  // ----- the stream as a set of events -----

  lemma StreamIsStrict(submission: string, attempts: seq<Attempt>, endAt: int)
    ensures var s := Stream(submission, attempts, endAt); StrictlyAscending(s) && PositiveSeqs(s) && Consistent(s)
  {
    hide Stream;
    StreamNumbered(submission, attempts, endAt);
  }

  lemma StrictFoldsAsIs(s: seq<Event>)
    requires StrictlyAscending(s) && PositiveSeqs(s) && Consistent(s)
    ensures Fold(SortBySeq(s)) == Fold(s)
  {
    hide SortBySeq, Step;
    SortAscends(s);
    var r := SortBySeq(s);
    DedupStrict(r);
    DedupElements(r);
    StrictIsUnique(Dedup(r), s);
    DedupFolds(r);
  }

  /** The stream's i-th event is the only one with its number, so whoever has seen the number has the event. */
  lemma NumberMeansEvent(submission: string, attempts: seq<Attempt>, endAt: int, received: seq<Event>, i: nat)
    requires forall e :: e in received ==> e in Stream(submission, attempts, endAt)
    requires i < |Stream(submission, attempts, endAt)| && i + 1 in SeqNos(received)
    ensures Stream(submission, attempts, endAt)[i] in received
  {
    hide Stream;
    var s := Stream(submission, attempts, endAt);
    StreamNumbered(submission, attempts, endAt);
    var e :| e in received && e.seqNo == i + 1;
    var j :| 0 <= j < |s| && s[j] == e;
  }

  lemma SameSeqNos(a: seq<Event>, b: seq<Event>)
    requires SameEvents(a, b)
    ensures SeqNos(a) == SeqNos(b)
  {
  }

  /** A part of the stream that has the end marker and no gap is the whole stream. */
  lemma NoGapMeansWhole(submission: string, attempts: seq<Attempt>, endAt: int, received: seq<Event>)
    requires var s := Stream(submission, attempts, endAt);
      (forall e :: e in received ==> e in s) && HasEnd(received)
    requires Gap(Fold(SortBySeq(received)).tally) == 0
    ensures SameEvents(received, Stream(submission, attempts, endAt))
  {
    hide SortBySeq, Fold, Stream, Gap, UpTo, SeqNos;
    var s := Stream(submission, attempts, endAt);
    var sorted := SortBySeq(received);
    var t := Fold(sorted).tally;
    SortAscends(received);
    SameSeqNos(received, sorted);
    FoldKeeps(sorted);
    NoGapMeansAllSeen(t);
    UpToFacts(t.maxSeq);
    EndSeen(submission, attempts, endAt, received, sorted);
    forall i | 0 <= i < |s| ensures s[i] in received {
      NumberMeansEvent(submission, attempts, endAt, received, i);
    }
  }

  lemma EndSeen(submission: string, attempts: seq<Attempt>, endAt: int, received: seq<Event>, sorted: seq<Event>)
    requires SameEvents(sorted, received) && HasEnd(received)
    requires forall e :: e in received ==> e in Stream(submission, attempts, endAt)
    ensures |Stream(submission, attempts, endAt)| in SeqNos(sorted)
  {
    LogHasNoEnd(submission, attempts);
    var e :| e in received && e.endOfRun;
    assert e in sorted && e.seqNo == |Stream(submission, attempts, endAt)|;
  }

  // ----- verdicts -----

  lemma GlobalTaintExcuses(t: Tally)
    requires GlobalTaint(t)
    ensures VerdictOf(t) != Incorrect
  {
    hide VerdictOf;
    IncorrectIff(t);
  }

  lemma SettledExcuses(t: Tally)
    requires Settled(t, {})
    ensures VerdictOf(t) != Incorrect
  {
    hide VerdictOf, Diff;
    IncorrectIff(t);
    forall k | 0 <= k < |t.aggressors| ensures !CleanDivergence(t, k) {
      assert SettledOne(t, t.aggressors[k]);
    }
  }

  /** The end marker adds nothing but its own number. */
  lemma StreamTally(xs: seq<Exchange>, submission: string, endAt: int)
    requires HonestRun(xs) && NoHiddenCancel(xs)
    ensures var t := Fold(Stream(submission, Attempts(xs), endAt)).tally;
      && Kept(t) && Settled(t, {}) && Gap(t) == 0 && Orphans(t) == {}
      && t.unknown == After(xs).lost && t.firstUnverifiable.Keys == After(xs).dirty
  {
    hide Diff, UpTo, CleanBooksAgree;
    RunInLockstep(xs, submission);
    var log := RunLog(submission, Attempts(xs));
    var st := Fold(log);
    var end := EndEvent(submission, endAt, |log| + 1);
    FoldConcat(log, [end]);
    assert FoldOn(st, [end]) == Step(st, end, Everywhere) by {
      assert [end][..0] == [];
    }
    StepFresh(st, end, |log|);
    StepKeeps(st, end, Everywhere);
    var t := Step(st, end, Everywhere).tally;
    SettledMono(st.tally, t);
    UpToFacts(|log| + 1);
  }

  /**
   Soundness: an honest contestant is never judged incorrect, whichever of its events arrive, in whatever order and
   however often, and whichever answers to orders were lost, applied or not.
   */
  lemma HonestIsNeverIncorrect(xs: seq<Exchange>, submission: string, endAt: int, received: seq<Event>)
    requires HonestRun(xs) && NoHiddenCancel(xs)
    requires forall e :: e in received ==> e in Stream(submission, Attempts(xs), endAt)
    ensures Finalize(received) != Incorrect
  {
    hide VerdictOf, Fold, SortBySeq, Stream, Settled, GlobalTaint, Kept;
    if HasEnd(received) {
      var t := Fold(SortBySeq(received)).tally;
      if GlobalTaint(t) {
        GlobalTaintExcuses(t);
      } else {
        NoGlobalTaint(t);
        var s := Stream(submission, Attempts(xs), endAt);
        NoGapMeansWhole(submission, Attempts(xs), endAt, received);
        WholeStreamVerdict(xs, submission, endAt, received);
        StreamTally(xs, submission, endAt);
        SettledExcuses(Fold(s).tally);
      }
    }
  }

  lemma NoGlobalTaint(t: Tally)
    ensures !GlobalTaint(t) ==> Gap(t) == 0 && Orphans(t) == {}
  {
  }

  lemma WholeStreamVerdict(xs: seq<Exchange>, submission: string, endAt: int, received: seq<Event>)
    requires SameEvents(received, Stream(submission, Attempts(xs), endAt))
    ensures HasEnd(received)
    ensures Finalize(received) == VerdictOf(Fold(Stream(submission, Attempts(xs), endAt)).tally)
  {
    hide VerdictOf, Fold, SortBySeq;
    var s := Stream(submission, Attempts(xs), endAt);
    StreamIsStrict(submission, Attempts(xs), endAt);
    StrictFoldsAsIs(s);
    VerdictDependsOnSet(s, received);
    assert s[|s| - 1] in s && s[|s| - 1].endOfRun;
  }

  predicate NothingLost(xs: seq<Exchange>) {
    forall x :: x in xs ==> !x.Result().Unknown?
  }

  lemma {:induction false} NothingLostIsClean(xs: seq<Exchange>)
    requires NothingLost(xs)
    ensures After(xs).lost == 0 && After(xs).dirty == {} && NoHiddenCancel(xs)
  {
    hide Next;
    if xs != [] {
      assert xs[|xs| - 1] in xs && forall x :: x in xs[..|xs| - 1] ==> x in xs;
      NothingLostIsClean(xs[..|xs| - 1]);
      NextFacts(After(xs[..|xs| - 1]), xs[|xs| - 1]);
    }
  }

  /**
   A complete honest run passes: all order types, cancels and clean rejections anywhere, the events permuted and
   duplicated at will.
   */
  lemma CompleteHonestRunPasses(xs: seq<Exchange>, submission: string, endAt: int, received: seq<Event>)
    requires HonestRun(xs) && NothingLost(xs)
    requires SameEvents(received, Stream(submission, Attempts(xs), endAt))
    ensures Finalize(received) == Correct
  {
    hide VerdictOf, Fold, SortBySeq, Stream, Diff, Gap;
    NothingLostIsClean(xs);
    WholeStreamVerdict(xs, submission, endAt, received);
    StreamTally(xs, submission, endAt);
    var t := Fold(Stream(submission, Attempts(xs), endAt)).tally;
    forall k | 0 <= k < |t.aggressors| ensures DiffIs(t, k, Correct) {
      assert SettledOne(t, t.aggressors[k]);
    }
    CorrectIff(t);
  }

  // ----- what the worker delivers -----

  /** Whatever the uploads lose, what the worker delivers of an honest run is never judged incorrect ... */
  lemma DeliveryIsNeverIncorrect(xs: seq<Exchange>, submission: string, endAt: int, delivered: seq<Event>)
    requires HonestRun(xs) && NoHiddenCancel(xs)
    requires multiset(delivered) <= multiset(Stream(submission, Attempts(xs), endAt))
    ensures Finalize(delivered) != Incorrect
  {
    hide Stream, HonestRun, NoHiddenCancel, Finalize;
    var s := Stream(submission, Attempts(xs), endAt);
    forall e | e in delivered ensures e in s {
      assert e in multiset(delivered) && e in multiset(s);
    }
    HonestIsNeverIncorrect(xs, submission, endAt, delivered);
  }

  /** ... and if they lose nothing, a run without unknown outcomes passes. */
  lemma FullDeliveryPasses(xs: seq<Exchange>, submission: string, endAt: int, delivered: seq<Event>)
    requires HonestRun(xs) && NothingLost(xs)
    requires multiset(delivered) == multiset(Stream(submission, Attempts(xs), endAt))
    ensures Finalize(delivered) == Correct
  {
    hide Stream, HonestRun, NothingLost, Finalize;
    SameMultisetSameEvents(delivered, Stream(submission, Attempts(xs), endAt));
    CompleteHonestRunPasses(xs, submission, endAt, delivered);
  }

  // ----- the walk over the books leaves no choice -----

  /** Every order of an orderly run has an id of its own. */
  lemma {:induction false} OrderlyTickers(xs: seq<Exchange>, submission: string)
    requires OrderlyRun(xs)
    ensures OneTickerEach(RunLog(submission, Attempts(xs)))
    ensures forall e :: e in RunLog(submission, Attempts(xs)) && AcceptedOrder(e) ==> e.orderId in After(xs).used
  {
    hide AttemptLog, Orderly, Next;
    if xs != [] {
      var front, x := xs[..|xs| - 1], xs[|xs| - 1];
      var log := RunLog(submission, Attempts(front));
      OrderlyTickers(front, submission);
      assert Attempts(xs)[..|Attempts(xs)| - 1] == Attempts(front);
      NewIdIsFresh(After(front), x, submission, |log| + 1);
    }
  }

  lemma NewIdIsFresh(w: World, x: Exchange, submission: string, seqNo: nat)
    requires Orderly(w, x)
    ensures w.used <= Next(w, x).used
    ensures var log := AttemptLog(submission, x.attempt, seqNo);
      && (forall e, f :: e in log && f in log && AcceptedOrder(e) && AcceptedOrder(f) ==> e == f)
      && (forall e :: e in log && AcceptedOrder(e) ==> e.orderId !in w.used && e.orderId in Next(w, x).used)
  {
    hide Apply, FillEvent;
    FillsNumbered(submission, x.attempt, ServerIdOf(x.attempt.response), TradesOf(x.attempt.response), seqNo + 1);
    forall e | e in FillEvents(submission, x.attempt, ServerIdOf(x.attempt.response), TradesOf(x.attempt.response), seqNo + 1)
      ensures !AcceptedOrder(e)
    {
      var ts := TradesOf(x.attempt.response);
      var fs := FillEvents(submission, x.attempt, ServerIdOf(x.attempt.response), ts, seqNo + 1);
      var i :| 0 <= i < |fs| && fs[i] == e;
      FillIsNoOrder(submission, x.attempt, ServerIdOf(x.attempt.response), ts[i], seqNo + 1 + i);
    }
    NextFacts(w, x);
  }

  lemma FillIsNoOrder(submission: string, a: Attempt, serverId: nat, t: ParsedTrade, seqNo: nat)
    ensures !AcceptedOrder(FillEvent(submission, a, serverId, t, seqNo))
  {
  }

  lemma StreamTickers(xs: seq<Exchange>, submission: string, endAt: int)
    requires OrderlyRun(xs)
    ensures OneTickerEach(Stream(submission, Attempts(xs), endAt))
  {
    hide OrderlyRun, RunLog;
    OrderlyTickers(xs, submission);
    var log := RunLog(submission, Attempts(xs));
    assert !AcceptedOrder(EndEvent(submission, endAt, |log| + 1));
  }

  lemma PartKeeps(part: seq<Event>, whole: seq<Event>)
    requires forall e :: e in part ==> e in whole
    ensures PositiveSeqs(whole) ==> PositiveSeqs(part)
    ensures Consistent(whole) ==> Consistent(part)
    ensures OneTickerEach(whole) ==> OneTickerEach(part)
  {
  }

  /**
   So every verdict above is the one the replay returns: on whatever part of such a stream arrives, the order in which
   its cancels walk the books leaves it no choice.
   */
  lemma OneVerdictOnPart(xs: seq<Exchange>, submission: string, endAt: int, received: seq<Event>, v: Verdict)
    requires OrderlyRun(xs) && forall e :: e in received ==> e in Stream(submission, Attempts(xs), endAt)
    ensures MayFinalize(received, v) <==> v == Finalize(received)
  {
    hide OrderlyRun, MayFinalize, Finalize, Stream, PositiveSeqs, Consistent, OneTickerEach;
    StreamIsStrict(submission, Attempts(xs), endAt);
    StreamTickers(xs, submission, endAt);
    PartKeeps(received, Stream(submission, Attempts(xs), endAt));
    OneVerdictPossible(received, v);
  }
}
