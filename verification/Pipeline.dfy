/**
 Router, one processor per submission, and engine, joined by channels. A move is one thing any of their goroutines can
 do next, so a sequence of moves is one interleaving of all of them.
 */
module Pipeline {
  import opened MarketTypes
  import opened ReplaySpec
  import opened Reordering
  import opened EngineSpec

  /**
   One processor: its input channel, what has reached it so far, and what it is sending on, one event at a time.
   Its buffer is the one `RunOn` leaves after `taken`.
   */
  datatype Worker = Worker(queue: seq<Event>, taken: seq<Input>, sending: seq<Event>, done: bool)

  const NEW_WORKER := Worker([], [], [], false)

  /** `routed` is what the router has taken off its input, `merged` the shared channel, `steps` what the engine did. */
  datatype Pipe = Pipe(
    routed: seq<Event>,
    inputOpen: bool,
    workers: map<string, Worker>,
    merged: seq<Event>,
    outOpen: bool,
    steps: seq<EngineStep>)

  const EMPTY_PIPE := Pipe([], true, map[], [], true, [])

  datatype Move =
    | Route(event: Event)
    | CloseInput
    | Ingest(s: string)
    | Idle(s: string)
    | Drain(s: string)
    | Send(s: string)
    | CloseOut
    | Hear
    | Turn(step: EngineStep)

  function WorkerOf(p: Pipe, s: string): Worker {
    if s in p.workers then p.workers[s] else NEW_WORKER
  }

  function Fed(w: Worker, lateness: int, i: Input): Worker {
    var r := Receive(RunOn(lateness, w.taken).buffer, lateness, i);
    w.(taken := w.taken + [i], sending := w.sending + r.out)
  }

  function Routed(p: Pipe, e: Event): Pipe {
    var p' := p.(routed := p.routed + [e]);
    if e.submission == "" then p'
    else
      var w := WorkerOf(p, e.submission);
      p'.(workers := p.workers[e.submission := w.(queue := w.queue + [e])])
  }

  predicate Free(p: Pipe, s: string) {
    s in p.workers && p.workers[s].sending == [] && !p.workers[s].done
  }

  predicate AllDone(p: Pipe) {
    forall s :: s in p.workers ==> p.workers[s].done && p.workers[s].sending == []
  }

  ghost function EngineNow(p: Pipe, cap: nat): EngineState {
    EngineSpec.After(p.steps, cap)
  }

  predicate MayTurn(p: Pipe, step: EngineStep) {
    !step.Consume? && (step.InputClosed? ==> !p.outOpen && p.merged == [])
  }

  /** One move; a move that is not enabled changes nothing. */
  ghost function Advance(p: Pipe, m: Move, lateness: int, cap: nat): Pipe {
    match m
    case Route(e) => if p.inputOpen then Routed(p, e) else p
    case CloseInput => p.(inputOpen := false)
    case Ingest(s) =>
      if Free(p, s) && p.workers[s].queue != [] then
        var w := p.workers[s];
        p.(workers := p.workers[s := Fed(w.(queue := w.queue[1..]), lateness, Arrive(w.queue[0]))])
      else p
    case Idle(s) =>
      if Free(p, s) then p.(workers := p.workers[s := Fed(p.workers[s], lateness, IdleTimeout)]) else p
    case Drain(s) =>
      if Free(p, s) && !p.inputOpen && p.workers[s].queue == [] then
        p.(workers := p.workers[s := Fed(p.workers[s], lateness, IdleTimeout).(done := true)])
      else p
    case Send(s) =>
      if s in p.workers && p.workers[s].sending != [] then
        var w := p.workers[s];
        p.(workers := p.workers[s := w.(sending := w.sending[1..])], merged := p.merged + [w.sending[0]])
      else p
    case CloseOut => if !p.inputOpen && AllDone(p) then p.(outOpen := false) else p
    case Hear =>
      if p.merged != [] && EngineNow(p, cap).phase.Reading? then
        Heeded(p)
      else p
    case Turn(step) => if MayTurn(p, step) then p.(steps := p.steps + [step]) else p
  }

  ghost function Piped(moves: seq<Move>, lateness: int, cap: nat): Pipe {
    if moves == [] then EMPTY_PIPE
    else Advance(Piped(moves[..|moves| - 1], lateness, cap), moves[|moves| - 1], lateness, cap)
  }

  // ----- what every interleaving keeps -----

  /** What has left processor `s`: heard by the engine, or still in the shared channel. */
  ghost function Gone(p: Pipe, s: string, cap: nat): seq<Event> {
    Own(Heard(p.steps, cap), s) + Own(p.merged, s)
  }

  /** Processor `s` has taken and still has queued exactly its own events; what left it is what a run of it emits. */
  ghost predicate WorkerOk(w: Worker, p: Pipe, s: string, lateness: int, cap: nat) {
    && s != ""
    && Arrivals(w.taken) + w.queue == Own(p.routed, s)
    && Gone(p, s, cap) + w.sending == RunOn(lateness, w.taken).out
    && (w.done ==> w.queue == [] && RunOn(lateness, w.taken).buffer.pending == [])
  }

  ghost predicate Silent(p: Pipe, s: string, cap: nat) {
    (s != "" ==> Own(p.routed, s) == []) && Gone(p, s, cap) == []
  }

  ghost predicate ChannelsOk(p: Pipe, cap: nat) {
    && (!p.outOpen ==> !p.inputOpen && AllDone(p))
    && (!EngineNow(p, cap).phase.Reading? ==> !p.outOpen && p.merged == [])
    && (forall s :: s in p.workers && p.workers[s].done ==> !p.inputOpen)
  }

  ghost predicate PipeOk(p: Pipe, lateness: int, cap: nat) {
    && (forall s :: s in p.workers ==> WorkerOk(p.workers[s], p, s, lateness, cap))
    && (forall s :: s !in p.workers ==> Silent(p, s, cap))
    && ChannelsOk(p, cap)
  }

  // ----- small facts -----

  lemma OwnNothing(s: string)
    ensures Own([], s) == []
  {
  }

  lemma {:induction false} OwnConcat(a: seq<Event>, b: seq<Event>, s: string)
    ensures Own(a + b, s) == Own(a, s) + Own(b, s)
  {
    hide Own;
    if b == [] {
      assert a + b == a;
      OwnNothing(s);
      assert Own(a, s) + [] == Own(a, s);
    } else {
      var front, e := b[..|b| - 1], b[|b| - 1];
      assert a + b == (a + front) + [e];
      OwnConcat(a, front, s);
      OwnSnoc(a + front, e, s);
      OwnSnoc(front, e, s);
      assert front + [e] == b;
    }
  }

  lemma {:induction false} OwnIsOwn(es: seq<Event>, s: string)
    ensures forall e :: e in Own(es, s) <==> e in es && e.submission == s
  {
    if es != [] {
      OwnIsOwn(es[..|es| - 1], s);
      assert es == es[..|es| - 1] + [es[|es| - 1]];
    }
  }

  lemma OwnOne(e: Event, s: string)
    ensures Own([e], s) == if e.submission == s then [e] else []
  {
    assert [e][..0] == [];
  }

  lemma OwnHead(es: seq<Event>, s: string)
    requires es != []
    ensures Own(es, s) == (if es[0].submission == s then [es[0]] else []) + Own(es[1..], s)
  {
    hide Own;
    assert es == [es[0]] + es[1..];
    OwnConcat([es[0]], es[1..], s);
    OwnOne(es[0], s);
  }

  lemma HeardSnoc(steps: seq<EngineStep>, step: EngineStep, cap: nat)
    ensures EngineSpec.After(steps + [step], cap) == Do(EngineSpec.After(steps, cap), step, cap)
    ensures Heard(steps + [step], cap)
         == if step.Consume? && EngineSpec.After(steps, cap).phase.Reading? then Heard(steps, cap) + [step.event] else Heard(steps, cap)
  {
    hide Do;
    assert (steps + [step])[..|steps|] == steps;
    assert Heard(steps, cap) + [] == Heard(steps, cap);
  }

  lemma RunOnSnoc(lateness: int, taken: seq<Input>, i: Input)
    ensures var r := Receive(RunOn(lateness, taken).buffer, lateness, i);
      RunOn(lateness, taken + [i]) == Emission(r.buffer, RunOn(lateness, taken).out + r.out)
    ensures Arrivals(taken + [i]) == if i.Arrive? then Arrivals(taken) + [i.event] else Arrivals(taken)
  {
    hide Receive;
    assert (taken + [i])[..|taken|] == taken;
    assert Arrivals(taken) + [] == Arrivals(taken);
  }

  /** A processor emits only what reached it. */
  lemma EmittedArrived(lateness: int, inputs: seq<Input>, e: Event)
    requires e in RunOn(lateness, inputs).out
    ensures e in Arrivals(inputs)
  {
    hide RunOn, Arrivals;
    EachEventOnce(lateness, inputs);
    assert e in Output(lateness, inputs);
    assert e in multiset(Output(lateness, inputs));
    assert e in multiset(Arrivals(inputs));
  }

  lemma SendingIsOwn(w: Worker, p: Pipe, s: string, lateness: int, cap: nat)
    requires WorkerOk(w, p, s, lateness, cap) && w.sending != []
    ensures w.sending[0].submission == s
  {
    hide RunOn, Arrivals, Own;
    var e := w.sending[0];
    assert e in Gone(p, s, cap) + w.sending;
    EmittedArrived(lateness, w.taken, e);
    assert e in Arrivals(w.taken) + w.queue;
    OwnIsOwn(p.routed, s);
  }

  // ----- the moves -----

  /** Nothing a worker with this history can show for has changed. */
  lemma SameFlow(p: Pipe, p': Pipe, s: string, lateness: int, cap: nat)
    requires s in p.workers ==> WorkerOk(p.workers[s], p, s, lateness, cap)
    requires s !in p.workers ==> Silent(p, s, cap)
    requires Own(p'.routed, s) == Own(p.routed, s) || s == ""
    requires Gone(p', s, cap) == Gone(p, s, cap)
    ensures s in p.workers ==> WorkerOk(p.workers[s], p', s, lateness, cap)
    ensures s !in p.workers ==> Silent(p', s, cap)
  {
    hide Own, RunOn, Arrivals, Gone;
  }

  lemma RouteKeeps(p: Pipe, e: Event, lateness: int, cap: nat)
    requires PipeOk(p, lateness, cap) && p.inputOpen
    ensures PipeOk(Routed(p, e), lateness, cap)
  {
    hide Own, WorkerOk, Silent, Gone, Do;
    var p' := Routed(p, e);
    forall s ensures s in p'.workers ==> WorkerOk(p'.workers[s], p', s, lateness, cap)
      ensures s !in p'.workers ==> Silent(p', s, cap)
    {
      OwnSnoc(p.routed, e, s);
      SameGone(p, p', s, cap);
      if s == e.submission && s != "" {
        RoutedWorker(p, e, lateness, cap);
      } else {
        SameFlow(p, p', s, lateness, cap);
      }
    }
  }

  lemma SameGone(p: Pipe, p': Pipe, s: string, cap: nat)
    requires p'.merged == p.merged && p'.steps == p.steps
    ensures Gone(p', s, cap) == Gone(p, s, cap)
  {
  }

  lemma NothingYet(lateness: int)
    ensures RunOn(lateness, []).out == [] && Arrivals([]) == []
  {
  }

  lemma DoneMeansClosed(p: Pipe, s: string, cap: nat)
    requires ChannelsOk(p, cap) && s in p.workers && p.inputOpen
    ensures !p.workers[s].done
  {
  }

  lemma RoutedWorker(p: Pipe, e: Event, lateness: int, cap: nat)
    requires PipeOk(p, lateness, cap) && p.inputOpen && e.submission != ""
    ensures var s := e.submission;
      WorkerOk(Routed(p, e).workers[s], Routed(p, e), s, lateness, cap)
  {
    hide Gone, Do, RunOn, Arrivals, Own, ChannelsOk;
    var s := e.submission;
    var w := WorkerOf(p, s);
    var p' := Routed(p, e);
    NothingYet(lateness);
    if s in p.workers {
      DoneMeansClosed(p, s, cap);
    }
    OwnSnoc(p.routed, e, s);
    SameGone(p, p', s, cap);
    assert Arrivals(w.taken) + (w.queue + [e]) == Arrivals(w.taken) + w.queue + [e];
  }

  lemma FedKeeps(p: Pipe, s: string, queue: seq<Event>, i: Input, done: bool, lateness: int, cap: nat)
    requires PipeOk(p, lateness, cap) && s in p.workers && p.workers[s].sending == [] && !p.workers[s].done
    requires p.workers[s].queue == (if i.Arrive? then [i.event] else []) + queue
    requires done ==> i.IdleTimeout? && queue == [] && !p.inputOpen
    ensures PipeOk(p.(workers := p.workers[s := Fed(p.workers[s].(queue := queue), lateness, i).(done := done)]), lateness, cap)
  {
    hide Own, WorkerOk, Silent, Gone, Do;
    var w := Fed(p.workers[s].(queue := queue), lateness, i).(done := done);
    var p' := p.(workers := p.workers[s := w]);
    FedWorker(p, p', s, queue, i, done, lateness, cap);
    forall u | u != s
      ensures u in p'.workers ==> WorkerOk(p'.workers[u], p', u, lateness, cap)
      ensures u !in p'.workers ==> Silent(p', u, cap)
    {
      SameGone(p, p', u, cap);
      SameFlow(p, p', u, lateness, cap);
    }
  }

  lemma FedWorker(p: Pipe, p': Pipe, s: string, queue: seq<Event>, i: Input, done: bool, lateness: int, cap: nat)
    requires PipeOk(p, lateness, cap) && s in p.workers && p.workers[s].sending == []
    requires p.workers[s].queue == (if i.Arrive? then [i.event] else []) + queue
    requires done ==> i.IdleTimeout? && queue == []
    requires p'.routed == p.routed && p'.merged == p.merged && p'.steps == p.steps
    ensures WorkerOk(Fed(p.workers[s].(queue := queue), lateness, i).(done := done), p', s, lateness, cap)
  {
    hide Own, Gone, Do, RunOn, Arrivals;
    var w := p.workers[s];
    SameGone(p, p', s, cap);
    RunOnSnoc(lateness, w.taken, i);
    var out := Receive(RunOn(lateness, w.taken).buffer, lateness, i).out;
    assert Gone(p, s, cap) + ([] + out) == Gone(p, s, cap) + [] + out;
    if i.Arrive? {
      assert Arrivals(w.taken) + ([i.event] + queue) == Arrivals(w.taken) + [i.event] + queue;
    } else {
      assert [] + queue == queue;
    }
  }

  lemma SendKeeps(p: Pipe, s: string, lateness: int, cap: nat)
    requires PipeOk(p, lateness, cap) && s in p.workers && p.workers[s].sending != []
    ensures PipeOk(Advance(p, Send(s), lateness, cap), lateness, cap)
  {
    hide Own, WorkerOk, Silent, Gone, Do;
    var w := p.workers[s];
    var e := w.sending[0];
    var p' := Advance(p, Send(s), lateness, cap);
    SendingIsOwn(w, p, s, lateness, cap);
    SentWorker(p, p', s, lateness, cap);
    forall u | u != s
      ensures u in p'.workers ==> WorkerOk(p'.workers[u], p', u, lateness, cap)
      ensures u !in p'.workers ==> Silent(p', u, cap)
    {
      GoneAfterSend(p, p', e, u, cap);
      SameFlow(p, p', u, lateness, cap);
    }
  }

  lemma GoneAfterSend(p: Pipe, p': Pipe, e: Event, s: string, cap: nat)
    requires p'.merged == p.merged + [e] && p'.steps == p.steps
    ensures Gone(p', s, cap) == if e.submission == s then Gone(p, s, cap) + [e] else Gone(p, s, cap)
  {
    hide Own, Heard;
    OwnSnoc(p.merged, e, s);
    var heard := Own(Heard(p.steps, cap), s);
    assert heard + (Own(p.merged, s) + [e]) == heard + Own(p.merged, s) + [e];
  }

  lemma SentWorker(p: Pipe, p': Pipe, s: string, lateness: int, cap: nat)
    requires s in p.workers && WorkerOk(p.workers[s], p, s, lateness, cap) && p.workers[s].sending != []
    requires var w := p.workers[s];
      && w.sending[0].submission == s
      && p'.routed == p.routed && p'.merged == p.merged + [w.sending[0]] && p'.steps == p.steps
    ensures var w := p.workers[s]; WorkerOk(w.(sending := w.sending[1..]), p', s, lateness, cap)
  {
    hide Own, Gone, Do, RunOn, Arrivals;
    var w := p.workers[s];
    GoneAfterSend(p, p', w.sending[0], s, cap);
    assert Gone(p, s, cap) + [w.sending[0]] + w.sending[1..] == Gone(p, s, cap) + w.sending;
  }

  lemma HearKeeps(p: Pipe, lateness: int, cap: nat)
    requires PipeOk(p, lateness, cap) && p.merged != [] && EngineNow(p, cap).phase.Reading?
    ensures PipeOk(Advance(p, Hear, lateness, cap), lateness, cap)
  {
    hide Own, WorkerOk, Silent, Gone, ChannelsOk, EngineNow;
    var p' := Heeded(p);
    HearIs(p, lateness, cap);
    HearKeepsChannels(p, cap);
    forall s
      ensures s in p'.workers ==> WorkerOk(p'.workers[s], p', s, lateness, cap)
      ensures s !in p'.workers ==> Silent(p', s, cap)
    {
      GoneAfterHear(p, p', s, cap);
      SameFlow(p, p', s, lateness, cap);
    }
  }

  /** The engine has taken the first event off the shared channel. */
  function Heeded(p: Pipe): Pipe
    requires p.merged != []
  {
    p.(merged := p.merged[1..], steps := p.steps + [Consume(p.merged[0])])
  }

  lemma HearIs(p: Pipe, lateness: int, cap: nat)
    requires p.merged != [] && EngineNow(p, cap).phase.Reading?
    ensures Advance(p, Hear, lateness, cap) == Heeded(p)
  {
    hide EngineNow;
  }

  lemma HearKeepsChannels(p: Pipe, cap: nat)
    requires ChannelsOk(p, cap) && p.merged != [] && EngineNow(p, cap).phase.Reading?
    ensures ChannelsOk(Heeded(p), cap)
  {
    hide EngineSpec.After, Heed, Started;
    HeardSnoc(p.steps, Consume(p.merged[0]), cap);
  }

  lemma GoneAfterHear(p: Pipe, p': Pipe, s: string, cap: nat)
    requires p.merged != [] && EngineNow(p, cap).phase.Reading?
    requires p'.merged == p.merged[1..] && p'.steps == p.steps + [Consume(p.merged[0])]
    ensures Gone(p', s, cap) == Gone(p, s, cap)
  {
    hide Own, Heard, Do;
    HeardSnoc(p.steps, Consume(p.merged[0]), cap);
    OwnSnoc(Heard(p.steps, cap), p.merged[0], s);
    OwnHead(p.merged, s);
    var heard := Own(Heard(p.steps, cap), s);
    assert heard + [p.merged[0]] + Own(p.merged[1..], s) == heard + ([p.merged[0]] + Own(p.merged[1..], s));
    assert [] + Own(p.merged[1..], s) == Own(p.merged[1..], s);
  }

  lemma TurnKeeps(p: Pipe, step: EngineStep, lateness: int, cap: nat)
    requires PipeOk(p, lateness, cap) && MayTurn(p, step)
    ensures PipeOk(p.(steps := p.steps + [step]), lateness, cap)
  {
    hide Own, WorkerOk, Silent, MayFinalize;
    var p' := p.(steps := p.steps + [step]);
    HeardSnoc(p.steps, step, cap);
    forall s
      ensures s in p'.workers ==> WorkerOk(p'.workers[s], p', s, lateness, cap)
      ensures s !in p'.workers ==> Silent(p', s, cap)
    {
      SameFlow(p, p', s, lateness, cap);
    }
    TurnLeavesReading(EngineNow(p, cap), step, cap);
  }

  /** Only the close of its input makes the engine stop reading. */
  lemma TurnLeavesReading(e: EngineState, step: EngineStep, cap: nat)
    requires !step.Consume?
    ensures e.phase.Reading? && !Do(e, step, cap).phase.Reading? ==> step.InputClosed?
  {
    hide MayFinalize;
  }

  lemma CloseKeepsPipe(p: Pipe, lateness: int, cap: nat)
    requires PipeOk(p, lateness, cap)
    ensures PipeOk(p.(inputOpen := false), lateness, cap)
    ensures !p.inputOpen && AllDone(p) ==> PipeOk(p.(outOpen := false), lateness, cap)
  {
    hide Own, RunOn, Arrivals, Heard;
  }

  lemma {:induction false} EveryPipeIsOk(moves: seq<Move>, lateness: int, cap: nat)
    ensures PipeOk(Piped(moves, lateness, cap), lateness, cap)
  {
    hide PipeOk, Do, Fed, RunOn, Routed;
    if moves == [] {
      EmptyPipeIsOk(lateness, cap);
    } else {
      var p := Piped(moves[..|moves| - 1], lateness, cap);
      EveryPipeIsOk(moves[..|moves| - 1], lateness, cap);
      MoveKeeps(p, moves[|moves| - 1], lateness, cap);
    }
  }

  lemma EmptyPipeIsOk(lateness: int, cap: nat)
    ensures PipeOk(EMPTY_PIPE, lateness, cap)
  {
  }

  lemma MoveKeeps(p: Pipe, m: Move, lateness: int, cap: nat)
    requires PipeOk(p, lateness, cap)
    ensures PipeOk(Advance(p, m, lateness, cap), lateness, cap)
  {
    hide PipeOk, Do, RunOn, Routed, Receive;
    match m {
      case Route(e) =>
        if p.inputOpen {
          RouteKeeps(p, e, lateness, cap);
        }
      case Ingest(s) =>
        if Free(p, s) && p.workers[s].queue != [] {
          var w := p.workers[s];
          assert w.queue == [w.queue[0]] + w.queue[1..];
          FedKeeps(p, s, w.queue[1..], Arrive(w.queue[0]), false, lateness, cap);
        }
      case Idle(s) =>
        if Free(p, s) {
          assert [] + p.workers[s].queue == p.workers[s].queue;
          FedKeeps(p, s, p.workers[s].queue, IdleTimeout, false, lateness, cap);
        }
      case Drain(s) =>
        if Free(p, s) && !p.inputOpen && p.workers[s].queue == [] {
          FedKeeps(p, s, [], IdleTimeout, true, lateness, cap);
        }
      case Send(s) =>
        if s in p.workers && p.workers[s].sending != [] {
          SendKeeps(p, s, lateness, cap);
        }
      case Hear =>
        if p.merged != [] && EngineNow(p, cap).phase.Reading? {
          HearKeeps(p, lateness, cap);
        }
      case Turn(step) =>
        if MayTurn(p, step) {
          TurnKeeps(p, step, lateness, cap);
        }
      case _ =>
        CloseKeepsPipe(p, lateness, cap);
    }
  }

  /**
   An idle processor sends on all it still held back: with what it sent before, that is everything that ever arrived there,
   and nothing is held back any more.
   */
  lemma IdleFlushes(p: Pipe, s: string, lateness: int, cap: nat)
    requires PipeOk(p, lateness, cap) && Free(p, s)
    ensures var (w, p') := (p.workers[s], Advance(p, Idle(s), lateness, cap));
      var w' := p'.workers[s];
      && w'.sending == RunOn(lateness, w.taken).buffer.pending
      && RunOn(lateness, w'.taken).buffer.pending == []
      && w'.queue == w.queue && p' == p.(workers := p.workers[s := w'])
      && multiset(Gone(p', s, cap) + w'.sending) == multiset(Arrivals(w.taken))
  {
    hide Own, Arrivals, Heard, RunOn;
    var (w, p') := (p.workers[s], Advance(p, Idle(s), lateness, cap));
    RunOnSnoc(lateness, w.taken, IdleTimeout);
    EachEventOnce(lateness, w.taken);
    SameGone(p, p', s, cap);
    FedIdle(w, lateness);
    assert Gone(p, s, cap) + [] == Gone(p, s, cap);
  }

  lemma FedIdle(w: Worker, lateness: int)
    requires w.sending == []
    ensures Fed(w, lateness, IdleTimeout)
         == w.(taken := w.taken + [IdleTimeout], sending := RunOn(lateness, w.taken).buffer.pending)
  {
    hide RunOn;
    assert [] + RunOn(lateness, w.taken).buffer.pending == RunOn(lateness, w.taken).buffer.pending;
  }
}
