/** What the pipeline as a whole delivers, whichever of its goroutines runs when. */
module PipelineTheorems {
  import opened MarketTypes
  import opened StableSort
  import opened Writer
  import opened ReplaySpec
  import opened ReplayLaws
  import opened ReplayChoices
  import opened MapWalks
  import opened Contestant
  import opened SoundnessTheorems
  import opened Reordering
  import opened EngineSpec
  import opened EngineTheorems
  import opened Pipeline
  import opened PipelineProgress

  // ----- from the router to the engine -----

  lemma PipeOkAt(p: Pipe, s: string, lateness: int, cap: nat)
    requires PipeOk(p, lateness, cap)
    ensures s in p.workers ==> WorkerOk(p.workers[s], p, s, lateness, cap)
    ensures s !in p.workers ==> Silent(p, s, cap)
  {
  }

  /** The engine hears of a submission only what the router was given for it. */
  lemma HeardWasRouted(p: Pipe, s: string, e: Event, lateness: int, cap: nat)
    requires PipeOk(p, lateness, cap) && s != "" && e in Own(Heard(p.steps, cap), s)
    ensures s in p.workers && e in RunOn(lateness, p.workers[s].taken).out
    ensures e in Arrivals(p.workers[s].taken) && e in Own(p.routed, s)
  {
    hide PipeOk, Own, RunOn, Arrivals, Heard;
    PipeOkAt(p, s, lateness, cap);
    assert e in Gone(p, s, cap);
    var w := p.workers[s];
    assert e in Gone(p, s, cap) + w.sending;
    EmittedArrived(lateness, w.taken, e);
    assert e in Arrivals(w.taken) + w.queue;
  }

  /** The end marker comes once and last, and nothing carries a later timestamp. */
  ghost predicate EndsRun(es: seq<Event>) {
    && es != [] && es[|es| - 1].endOfRun
    && forall i :: 0 <= i < |es| - 1 ==> !es[i].endOfRun && es[i].timestamp <= es[|es| - 1].timestamp
  }

  /** An event no older than anything pending goes to the very end. */
  lemma {:induction false} NewestGoesLast(pending: seq<Event>, e: Event)
    requires AllUpTo(pending, e.timestamp)
    ensures InsertByKey(pending, Stamp, e) == pending + [e]
  {
    if pending != [] {
      NewestGoesLast(pending[1..], e);
      assert pending + [e] == [pending[0]] + (pending[1..] + [e]);
    }
  }

  lemma PendingArrived(lateness: int, inputs: seq<Input>, e: Event)
    requires e in RunOn(lateness, inputs).out || e in RunOn(lateness, inputs).buffer.pending
    ensures e in Arrivals(inputs)
  {
    hide RunOn, Arrivals;
    EachEventOnce(lateness, inputs);
    assert e in Output(lateness, inputs);
    assert e in multiset(Output(lateness, inputs));
    assert e in multiset(Arrivals(inputs));
  }

  /** What a processor has emitted once an end marker of this kind reached it: everything, the marker last. */
  lemma {:induction false} EndReleasesAll(lateness: int, inputs: seq<Input>)
    requires EndsRun(Arrivals(inputs))
    ensures var r := RunOn(lateness, inputs);
      && r.buffer.pending == [] && r.out != [] && r.out[|r.out| - 1].endOfRun
      && forall i :: 0 <= i < |r.out| - 1 ==> !r.out[i].endOfRun
  {
    hide InsertByKey;
    var front, i := inputs[..|inputs| - 1], inputs[|inputs| - 1];
    if i.Arrive? {
      EndArrives(lateness, front, i.event);
      assert front + [i] == inputs;
    } else {
      assert Arrivals(front) + [] == Arrivals(front);
      EndReleasesAll(lateness, front);
      assert RunOn(lateness, front).out + [] == RunOn(lateness, front).out;
    }
  }

  lemma EndArrives(lateness: int, front: seq<Input>, end: Event)
    requires EndsRun(Arrivals(front) + [end])
    ensures var before := RunOn(lateness, front);
      RunOn(lateness, front + [Arrive(end)]) == Emission(Flush(Enqueued(before.buffer, end)).buffer, before.out + (before.buffer.pending + [end]))
    ensures var before := RunOn(lateness, front);
      forall e :: e in before.out + before.buffer.pending ==> !e.endOfRun
  {
    hide RunOn, Arrivals, InsertByKey;
    var before := RunOn(lateness, front);
    var all := Arrivals(front) + [end];
    assert end.endOfRun by {
      assert all[|all| - 1] == end;
    }
    forall e | e in before.out || e in before.buffer.pending ensures !e.endOfRun && e.timestamp <= end.timestamp {
      PendingArrived(lateness, front, e);
      var i :| 0 <= i < |Arrivals(front)| && Arrivals(front)[i] == e;
      assert all[i] == e;
    }
    NewestGoesLast(before.buffer.pending, end);
    RunOnSnoc(lateness, front, Arrive(end));
  }

  /** A prefix of the emission that has the end marker is the whole emission. */
  lemma PrefixWithEnd(out: seq<Event>, k: nat)
    requires k <= |out| && HasEnd(out[..k])
    requires forall i :: 0 <= i < |out| - 1 ==> !out[i].endOfRun
    ensures out[..k] == out && UpToEnd(out) == out
  {
    var e :| e in out[..k] && e.endOfRun;
    var i :| 0 <= i < k && out[i] == e;
    assert forall x :: x in out[..|out| - 1] ==> !x.endOfRun;
  }

  /** Once the marker has arrived at the processor, all of the submission has. */
  lemma EndArrivedMeansAll(w: Worker, own: seq<Event>, e: Event)
    requires Arrivals(w.taken) + w.queue == own && EndsRun(own) && e in Arrivals(w.taken) && e.endOfRun
    ensures w.queue == [] && Arrivals(w.taken) == own
  {
    hide Arrivals;
    var i :| 0 <= i < |Arrivals(w.taken)| && Arrivals(w.taken)[i] == e;
    assert own[i] == e;
    if w.queue == [] {
      assert Arrivals(w.taken) + [] == Arrivals(w.taken);
    }
  }

  /** A submission whose end marker was routed last is judged, if at all, on exactly its own events. */
  lemma HeardInFull(p: Pipe, s: string, lateness: int, cap: nat)
    requires PipeOk(p, lateness, cap) && s != "" && EndsRun(Own(p.routed, s)) && HasEnd(Own(Heard(p.steps, cap), s))
    ensures SameEvents(UpToEnd(Own(Heard(p.steps, cap), s)), Own(p.routed, s))
  {
    hide PipeOk, Own, RunOn, Arrivals, Heard, EndsRun, UpToEnd;
    var heard := Own(Heard(p.steps, cap), s);
    var e :| e in heard && e.endOfRun;
    HeardWasRouted(p, s, e, lateness, cap);
    PipeOkAt(p, s, lateness, cap);
    var w := p.workers[s];
    EndArrivedMeansAll(w, Own(p.routed, s), e);
    EndReleasesAll(lateness, w.taken);
    var out := RunOn(lateness, w.taken).out;
    assert out == heard + (Own(p.merged, s) + w.sending);
    assert out[..|heard|] == heard;
    PrefixWithEnd(out, |heard|);
    EachEventOnce(lateness, w.taken);
    assert out + [] == out;
    SameMultisetSameEvents(out, Own(p.routed, s));
  }

  /** When the engine has stopped reading it has heard everything that was routed. */
  lemma AllHeardAtTheEnd(p: Pipe, s: string, lateness: int, cap: nat)
    requires PipeOk(p, lateness, cap) && s != "" && !EngineNow(p, cap).phase.Reading?
    ensures SameEvents(Own(Heard(p.steps, cap), s), Own(p.routed, s))
  {
    hide Own, RunOn, Arrivals, Heard, EngineNow;
    OwnNothing(s);
    var heard := Own(Heard(p.steps, cap), s);
    assert heard + [] == heard;
    if s in p.workers {
      var w := p.workers[s];
      EachEventOnce(lateness, w.taken);
      assert RunOn(lateness, w.taken).out + [] == RunOn(lateness, w.taken).out;
      assert Arrivals(w.taken) + [] == Arrivals(w.taken);
      SameMultisetSameEvents(heard, Own(p.routed, s));
    }
  }

  /** A verdict on such a submission is never given before its end marker was heard. */
  lemma JudgedAfterEnd(p: Pipe, u: Update, lateness: int, cap: nat)
    requires PipeOk(p, lateness, cap) && EndsRun(Own(p.routed, u.submission))
    requires u in EngineNow(p, cap).sent
    ensures u.submission != "" && HasEnd(Own(Heard(p.steps, cap), u.submission))
  {
    hide Own, EndsRun, PipeOk, Heard, EngineSpec.After, MayFinalize, UpToEnd;
    var s := u.submission;
    var e := EngineNow(p, cap);
    EveryInterleavingIsOk(p.steps, cap);
    UpdateNamed(e.sent, u);
    assert s in Names(e);
    assert s in e.ledger.finalized;
    if !e.phase.Reading? {
      AllHeardAtTheEnd(p, s, lateness, cap);
      EndsRunHasEnd(Own(p.routed, s));
      var x :| x in Own(p.routed, s) && x.endOfRun;
      assert x in Own(Heard(p.steps, cap), s);
    }
  }

  lemma EndsRunHasEnd(es: seq<Event>)
    requires EndsRun(es)
    ensures HasEnd(es)
  {
    assert es[|es| - 1] in es;
  }

  lemma VerdictOnPipe(p: Pipe, u: Update, lateness: int, cap: nat)
    requires PipeOk(p, lateness, cap) && u in EngineNow(p, cap).sent
    requires MayFinalize(UpToEnd(Own(Heard(p.steps, cap), u.submission)), u.verdict)
    requires var own := Own(p.routed, u.submission);
      EndsRun(own) && PositiveSeqs(own) && Consistent(own)
    ensures MayFinalize(Own(p.routed, u.submission), u.verdict)
  {
    hide Own, EndsRun, PipeOk, Heard, EngineNow, MayFinalize, UpToEnd, PositiveSeqs, Consistent, HasEnd;
    var own := Own(p.routed, u.submission);
    var judged := UpToEnd(Own(Heard(p.steps, cap), u.submission));
    JudgedAfterEnd(p, u, lateness, cap);
    HeardInFull(p, u.submission, lateness, cap);
    PossibleVerdictsDependOnSet(own, judged, u.verdict);
  }

  /**
   Composition: in every interleaving of router, processors, idle timeouts, engine and workers, a submission whose end
   marker is routed last and carries the largest timestamp gets a verdict that replaying exactly its own events allows,
   and with distinct order ids that is the one verdict there is, whatever the other submissions send and whenever.
   */
  lemma VerdictIsOwnReplay(moves: seq<Move>, lateness: int, cap: nat, u: Update)
    requires u in EngineNow(Piped(moves, lateness, cap), cap).sent
    requires var own := Own(Piped(moves, lateness, cap).routed, u.submission);
      EndsRun(own) && PositiveSeqs(own) && Consistent(own)
    ensures var own := Own(Piped(moves, lateness, cap).routed, u.submission);
      MayFinalize(own, u.verdict) && (OneTickerEach(own) ==> u.verdict == Finalize(own))
  {
    hide Own, EndsRun, PipeOk, Heard, Piped, MayFinalize, UpToEnd, PositiveSeqs, Consistent, OneTickerEach, Finalize;
    var p := Piped(moves, lateness, cap);
    var own := Own(p.routed, u.submission);
    EveryPipeIsOk(moves, lateness, cap);
    VerdictsAreOwn(p.steps, cap);
    VerdictOnPipe(p, u, lateness, cap);
    if OneTickerEach(own) {
      OneVerdictPossible(own, u.verdict);
    }
  }

  // ----- what is routed is judged -----

  /** Once the updates channel is closed every submission the router was given has exactly one verdict, and no other has any. */
  lemma OneVerdictPerRouted(p: Pipe, s: string, lateness: int, cap: nat)
    requires PipeOk(p, lateness, cap) && EngineNow(p, cap).phase.Closed?
    ensures Verdicts(EngineNow(p, cap), s) == if s != "" && Own(p.routed, s) != [] then 1 else 0
  {
    hide Own, PipeOk, Heard, Verdicts;
    OneVerdictEach(p.steps, cap, s);
    if s != "" {
      AllHeardAtTheEnd(p, s, lateness, cap);
      var heard, routed := Own(Heard(p.steps, cap), s), Own(p.routed, s);
      assert heard != [] ==> heard[0] in routed;
      assert routed != [] ==> routed[0] in heard;
    }
  }

  /** With its input closed the router takes nothing more. */
  lemma ClosedKeepsRouted(p: Pipe, m: Move, lateness: int, cap: nat)
    requires !p.inputOpen
    ensures Advance(p, m, lateness, cap).routed == p.routed && !Advance(p, m, lateness, cap).inputOpen
  {
    hide Fed, EngineNow, MayTurn;
  }

  lemma {:induction false} ClosedKeepsRoutedThroughout(moves: seq<Move>, more: seq<Move>, lateness: int, cap: nat)
    requires !Piped(moves, lateness, cap).inputOpen
    ensures Piped(moves + more, lateness, cap).routed == Piped(moves, lateness, cap).routed
    ensures !Piped(moves + more, lateness, cap).inputOpen
  {
    hide Advance, Piped;
    if more == [] {
      assert moves + more == moves;
    } else {
      var front, m := more[..|more| - 1], more[|more| - 1];
      ClosedKeepsRoutedThroughout(moves, front, lateness, cap);
      PipedSnoc(moves + front, m, lateness, cap);
      assert moves + front + [m] == moves + more;
      ClosedKeepsRouted(Piped(moves + front, lateness, cap), m, lateness, cap);
    }
  }

  function Routes(es: seq<Event>): seq<Move> {
    seq(|es|, i requires 0 <= i < |es| => Route(es[i]))
  }

  lemma {:induction false} RoutesAreTaken(es: seq<Event>, lateness: int, cap: nat)
    ensures Piped(Routes(es), lateness, cap).routed == es && Piped(Routes(es), lateness, cap).inputOpen
  {
    hide Piped;
    if es == [] {
      NothingRouted(lateness, cap);
    } else {
      var front, e := es[..|es| - 1], es[|es| - 1];
      RoutesAreTaken(front, lateness, cap);
      assert Routes(es) == Routes(front) + [Route(e)];
      PipedSnoc(Routes(front), Route(e), lateness, cap);
    }
  }

  lemma NothingRouted(lateness: int, cap: nat)
    ensures Piped([], lateness, cap) == EMPTY_PIPE
  {
  }

  /** Every input can be brought through the pipeline: routed as it is, with one verdict for each submission in it. */
  lemma EveryInputIsJudged(es: seq<Event>, lateness: int, cap: nat) returns (moves: seq<Move>)
    requires 0 < cap
    ensures var p := Piped(moves, lateness, cap);
      && p.routed == es && EngineNow(p, cap).phase.Closed?
      && forall s :: Verdicts(EngineNow(p, cap), s) == if s != "" && Own(es, s) != [] then 1 else 0
  {
    hide Piped, EngineNow, Own, Verdicts, PipeOk;
    RoutesAreTaken(es, lateness, cap);
    PipedSnoc(Routes(es), CloseInput, lateness, cap);
    var closed := Routes(es) + [CloseInput];
    var rest := CanCloseFrom(closed, lateness, cap);
    moves := closed + rest;
    ClosedKeepsRoutedThroughout(closed, rest, lateness, cap);
    EveryPipeIsOk(moves, lateness, cap);
    var p := Piped(moves, lateness, cap);
    forall s ensures Verdicts(EngineNow(p, cap), s) == if s != "" && Own(es, s) != [] then 1 else 0 {
      OneVerdictPerRouted(p, s, lateness, cap);
    }
  }

  // ----- end to end -----

  /**
   The checker's promise, end to end: whatever reaches the router of an honest submission's stream, in whatever order,
   however often, timestamps and idle timeouts as they may be, no interleaving of the pipeline ever judges it incorrect.
   */
  lemma NoInterleavingFailsHonest(moves: seq<Move>, lateness: int, cap: nat, u: Update, xs: seq<Exchange>, endAt: int)
    requires HonestRun(xs) && NoHiddenCancel(xs) && u.submission != ""
    requires u in EngineNow(Piped(moves, lateness, cap), cap).sent
    requires forall e :: e in Own(Piped(moves, lateness, cap).routed, u.submission) ==> e in Stream(u.submission, Attempts(xs), endAt)
    ensures u.verdict != Incorrect
  {
    hide Own, PipeOk, Heard, Piped, MayFinalize, UpToEnd, HonestRun, OrderlyRun, NoHiddenCancel, Finalize, Stream,
         PositiveSeqs, Consistent, OneTickerEach;
    var p := Piped(moves, lateness, cap);
    var own := Own(Heard(p.steps, cap), u.submission);
    var judged := UpToEnd(own);
    EveryPipeIsOk(moves, lateness, cap);
    VerdictsAreOwn(p.steps, cap);
    UpToEndFacts(own);
    var s := Stream(u.submission, Attempts(xs), endAt);
    forall e | e in judged ensures e in s {
      assert e in own;
      HeardWasRouted(p, u.submission, e, lateness, cap);
    }
    HonestRunIsOrderly(xs);
    OneVerdictOnPart(xs, u.submission, endAt, judged, u.verdict);
    HonestIsNeverIncorrect(xs, u.submission, endAt, judged);
  }

  /** And a complete honest stream whose marker is routed last ends in exactly one verdict, Correct. */
  lemma CompleteRunPassesPipeline(moves: seq<Move>, lateness: int, cap: nat, s: string, xs: seq<Exchange>, endAt: int)
    requires HonestRun(xs) && NothingLost(xs) && s != ""
    requires var p := Piped(moves, lateness, cap);
      && EngineNow(p, cap).phase.Closed?
      && SameEvents(Own(p.routed, s), Stream(s, Attempts(xs), endAt)) && EndsRun(Own(p.routed, s))
    ensures Verdicts(EngineNow(Piped(moves, lateness, cap), cap), s) == 1
    ensures forall u :: u in EngineNow(Piped(moves, lateness, cap), cap).sent && u.submission == s ==> u.verdict == Correct
  {
    hide Own, PipeOk, Heard, Piped, MayFinalize, UpToEnd, HonestRun, OrderlyRun, NothingLost, Finalize, Stream,
         PositiveSeqs, Consistent, OneTickerEach;
    var p := Piped(moves, lateness, cap);
    var own := Own(p.routed, s);
    EveryPipeIsOk(moves, lateness, cap);
    OneVerdictPerRouted(p, s, lateness, cap);
    StreamIsStrict(s, Attempts(xs), endAt);
    HonestRunIsOrderly(xs);
    StreamTickers(xs, s, endAt);
    PartKeeps(own, Stream(s, Attempts(xs), endAt));
    CompleteHonestRunPasses(xs, s, endAt, own);
    forall u | u in EngineNow(p, cap).sent && u.submission == s ensures u.verdict == Correct {
      VerdictIsOwnReplay(moves, lateness, cap, u);
    }
  }

  lemma {:induction false} AllOwn(es: seq<Event>, s: string)
    requires forall e :: e in es ==> e.submission == s
    ensures Own(es, s) == es
  {
    if es != [] {
      assert es == es[..|es| - 1] + [es[|es| - 1]];
      AllOwn(es[..|es| - 1], s);
    }
  }

  /** And it does get there: a complete honest stream none of whose fills is later than its marker can be brought to its Correct. */
  lemma CompleteRunGetsThrough(s: string, xs: seq<Exchange>, endAt: int, lateness: int, cap: nat) returns (moves: seq<Move>)
    requires HonestRun(xs) && NothingLost(xs) && s != "" && 0 < cap
    requires forall e :: e in Stream(s, Attempts(xs), endAt) ==> e.timestamp <= endAt
    ensures var p := Piped(moves, lateness, cap);
      && p.routed == Stream(s, Attempts(xs), endAt) && EngineNow(p, cap).phase.Closed?
      && Verdicts(EngineNow(p, cap), s) == 1
      && forall u :: u in EngineNow(p, cap).sent && u.submission == s ==> u.verdict == Correct
  {
    hide Own, Piped, EngineNow, HonestRun, NothingLost, Verdicts, Attempts, RunLog, EndsRun;
    var es := Stream(s, Attempts(xs), endAt);
    moves := EveryInputIsJudged(es, lateness, cap);
    StreamIsOwn(s, Attempts(xs), endAt);
    AllOwn(es, s);
    StreamEndsRun(s, Attempts(xs), endAt);
    CompleteRunPassesPipeline(moves, lateness, cap, s, xs, endAt);
  }

  lemma StreamEndsRun(s: string, attempts: seq<Attempt>, endAt: int)
    requires forall e :: e in Stream(s, attempts, endAt) ==> e.timestamp <= endAt
    ensures EndsRun(Stream(s, attempts, endAt))
  {
    hide RunLog;
    LogHasNoEnd(s, attempts);
    var es := Stream(s, attempts, endAt);
    assert forall i :: 0 <= i < |es| - 1 ==> es[i] in RunLog(s, attempts);
  }
}
