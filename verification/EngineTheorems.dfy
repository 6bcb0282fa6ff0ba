/** What every interleaving of the engine's main loop and its workers keeps, and what that means for the verdicts. */
module EngineTheorems {
  import opened MarketTypes
  import opened ReplaySpec
  import opened ReplayChoices
  import opened EngineSpec

  /** The invariant holds in every state any interleaving reaches, at most `cap` replays running at once among it. */
  lemma {:induction false} EveryInterleavingIsOk(steps: seq<EngineStep>, cap: nat)
    ensures EngineOk(After(steps, cap), Heard(steps, cap), cap)
  {
    hide EngineOk, Do;
    if steps == [] {
      IdleIsOk(cap);
    } else {
      var front := steps[..|steps| - 1];
      var e, heard := After(front, cap), Heard(front, cap);
      EveryInterleavingIsOk(front, cap);
      assert heard + [] == heard;
      match steps[|steps| - 1] {
        case Consume(ev) =>
          if e.phase.Reading? {
            ConsumeKeeps(e, heard, ev, cap);
          } else {
            NotReading(e, ev, cap);
          }
        case InputClosed(order) =>
          CloseKeeps(e, heard, order, cap);
        case FlushOne(v) =>
          FlushKeeps(e, heard, v, cap);
        case Acquire(i) =>
          AcquireKeeps(e, heard, i, cap);
        case Finish(i, v) =>
          FinishKeeps(e, heard, i, v, cap);
        case CloseUpdates =>
          CloseKeeps(e, heard, [], cap);
      }
    }
  }

  lemma IdleIsOk(cap: nat)
    ensures EngineOk(IDLE, [], cap)
  {
  }

  lemma NotReading(e: EngineState, ev: Event, cap: nat)
    requires !e.phase.Reading?
    ensures Do(e, Consume(ev), cap) == e
  {
  }

  // ----- what that means for the verdicts -----

  function Verdicts(e: EngineState, s: string): nat {
    multiset(UpdateNames(e.sent))[s]
  }

  /** At any moment every verdict sent is one its submission's own events allow, and no submission has two. */
  lemma VerdictsAreOwn(steps: seq<EngineStep>, cap: nat)
    ensures var e, heard := After(steps, cap), Heard(steps, cap);
      && (forall s :: Verdicts(e, s) <= 1)
      && (forall u :: u in e.sent ==> MayFinalize(UpToEnd(Own(heard, u.submission)), u.verdict))
  {
    hide MayFinalize, UpToEnd, Own, BuffersOk, PhaseOk;
    EveryInterleavingIsOk(steps, cap);
    var e := After(steps, cap);
    forall s ensures Verdicts(e, s) <= 1 {
      assert Names(e)[s] <= 1;
    }
  }

  /** Once the updates channel is closed, exactly the submissions that were heard of have a verdict, one each. */
  lemma OneVerdictEach(steps: seq<EngineStep>, cap: nat, s: string)
    requires After(steps, cap).phase.Closed?
    ensures Verdicts(After(steps, cap), s) == if s != "" && Own(Heard(steps, cap), s) != [] then 1 else 0
  {
    hide MayFinalize, UpToEnd, Own, Do, After, Heard;
    var e := After(steps, cap);
    EveryInterleavingIsOk(steps, cap);
    assert Names(e) == multiset(UpdateNames(e.sent));
    assert Names(e)[s] == if s in e.ledger.finalized then 1 else 0;
  }

  /** Nothing happens after the channel is closed; in particular nothing is sent on it. */
  lemma ClosedIsFinal(steps: seq<EngineStep>, step: EngineStep, cap: nat)
    requires After(steps, cap).phase.Closed?
    ensures Do(After(steps, cap), step, cap) == After(steps, cap)
  {
    hide MayFinalize, UpToEnd, Own, After, Heard, BuffersOk;
    EveryInterleavingIsOk(steps, cap);
  }

  // ----- after the input closes the engine always gets done -----

  function LeftToDo(e: EngineState): nat {
    |e.ledger.buffers| + 2 * |e.waiting| + |e.running| + (if e.phase.Closed? then 0 else 1)
  }

  lemma FinishShrinks(e: EngineState, v: Verdict, cap: nat)
    requires e.running != [] && MayFinalize(e.running[0].events, v)
    ensures LeftToDo(Do(e, Finish(0, v), cap)) < LeftToDo(e)
  {
    hide MayFinalize;
  }

  lemma AcquireShrinks(e: EngineState, cap: nat)
    requires e.waiting != [] && |e.running| < cap
    ensures LeftToDo(Do(e, Acquire(0), cap)) < LeftToDo(e)
  {
  }

  lemma FlushShrinks(e: EngineState, v: Verdict, cap: nat)
    requires e.phase.Flushing? && e.phase.left != [] && Enumerates(e.phase.left, e.ledger.buffers.Keys)
    requires MayFinalize(Buffered(e.ledger, e.phase.left[0]), v)
    ensures LeftToDo(Do(e, FlushOne(v), cap)) < LeftToDo(e)
  {
    hide MayFinalize;
    FirstOfEnumeration(e.phase.left, e.ledger.buffers.Keys);
    OneFewer(e.ledger.buffers, e.phase.left[0]);
  }

  lemma CloseShrinks(e: EngineState, cap: nat)
    requires e.phase == Flushing([]) && e.waiting == [] && e.running == []
    ensures LeftToDo(Do(e, CloseUpdates, cap)) < LeftToDo(e)
  {
  }

  lemma FlushingEnumerates(steps: seq<EngineStep>, cap: nat)
    requires After(steps, cap).phase.Flushing?
    ensures Enumerates(After(steps, cap).phase.left, After(steps, cap).ledger.buffers.Keys)
  {
    hide Do, After, Heard, BuffersOk, JobsOk, UpdatesOk, Names, Enumerates;
    EveryInterleavingIsOk(steps, cap);
  }

  /** As long as the channel is open some step is enabled that brings the end nearer ... */
  lemma NeverStuck(steps: seq<EngineStep>, cap: nat) returns (step: EngineStep)
    requires 0 < cap && After(steps, cap).phase.Flushing?
    ensures LeftToDo(Do(After(steps, cap), step, cap)) < LeftToDo(After(steps, cap))
  {
    hide MayFinalize, After, Do, LeftToDo, Enumerates;
    var e := After(steps, cap);
    FlushingEnumerates(steps, cap);
    if e.running != [] {
      var v := SomeVerdict(e.running[0].events);
      step := Finish(0, v);
      FinishShrinks(e, v, cap);
    } else if e.waiting != [] {
      step := Acquire(0);
      AcquireShrinks(e, cap);
    } else if e.phase.left != [] {
      var v := SomeVerdict(Buffered(e.ledger, e.phase.left[0]));
      step := FlushOne(v);
      FlushShrinks(e, v, cap);
    } else {
      step := CloseUpdates;
      CloseShrinks(e, cap);
    }
  }

  lemma OneFewer(m: map<string, seq<Event>>, s: string)
    requires s in m
    ensures |m - {s}| == |m| - 1
  {
    assert (m - {s}).Keys == m.Keys - {s};
    assert |m.Keys| == |m| && |(m - {s}).Keys| == |m - {s}|;
  }

  /** ... and no step leads away from it, so a fair schedule closes the channel. */
  lemma NeverAway(steps: seq<EngineStep>, step: EngineStep, cap: nat)
    requires After(steps, cap).phase.Flushing?
    ensures var e := After(steps, cap);
      Do(e, step, cap) == e || LeftToDo(Do(e, step, cap)) < LeftToDo(e)
  {
    hide MayFinalize, After;
    var e := After(steps, cap);
    FlushingEnumerates(steps, cap);
    if step.FlushOne? && e.phase.left != [] {
      FirstOfEnumeration(e.phase.left, e.ledger.buffers.Keys);
      OneFewer(e.ledger.buffers, e.phase.left[0]);
    }
  }
}
