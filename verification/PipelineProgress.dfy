/**
 Once its input is closed the pipeline always gets done: whatever its goroutines have done so far, some move brings the
 close of the updates channel nearer, and no move leads away from it.
 */
module PipelineProgress {
  import opened MarketTypes
  import opened ReplaySpec
  import opened Reordering
  import opened EngineSpec
  import opened EngineTheorems
  import opened Pipeline

  // ----- how much is left to do -----

  /** An event weighs less the nearer it is to the engine. */
  function Weight(w: Worker, lateness: int): nat {
    6 * |w.queue| + 5 * |RunOn(lateness, w.taken).buffer.pending| + 4 * |w.sending| + (if w.done then 0 else 1)
  }

  ghost function Weights(ws: map<string, Worker>, lateness: int): nat
    decreases |ws|
  {
    if ws == map[] then 0
    else
      var s :| s in ws;
      OneLess(ws, s);
      Weight(ws[s], lateness) + Weights(ws - {s}, lateness)
  }

  lemma OneLess<T>(m: map<string, T>, s: string)
    requires s in m
    ensures |m - {s}| == |m| - 1
  {
    assert (m - {s}).Keys == m.Keys - {s};
    assert |m.Keys| == |m| && |(m - {s}).Keys| == |m - {s}|;
  }

  lemma {:induction false} WeightsSplit(ws: map<string, Worker>, s: string, lateness: int)
    requires s in ws
    ensures Weights(ws, lateness) == Weight(ws[s], lateness) + Weights(ws - {s}, lateness)
    decreases |ws|
  {
    hide Weight;
    var t :| t in ws && Weights(ws, lateness) == Weight(ws[t], lateness) + Weights(ws - {t}, lateness);
    if t != s {
      OneLess(ws, t);
      OneLess(ws, s);
      WeightsSplit(ws - {t}, s, lateness);
      WeightsSplit(ws - {s}, t, lateness);
      assert ws - {t} - {s} == ws - {s} - {t};
    }
  }

  /** Only the weight of the worker that changed counts. */
  lemma WeightsUpdate(ws: map<string, Worker>, s: string, w: Worker, lateness: int)
    requires s in ws
    ensures Weights(ws[s := w], lateness) - Weights(ws, lateness) == Weight(w, lateness) - Weight(ws[s], lateness)
  {
    hide Weight;
    WeightsSplit(ws, s, lateness);
    WeightsSplit(ws[s := w], s, lateness);
    assert ws[s := w] - {s} == ws - {s};
  }

  function EngineLeft(e: EngineState): nat {
    LeftToDo(e) + (if e.phase.Reading? then 1 else 0)
  }

  /** All that is left to do in the pipeline once its input is closed. */
  ghost function Left(p: Pipe, lateness: int, cap: nat): nat {
    Weights(p.workers, lateness) + 3 * |p.merged| + (if p.outOpen then 1 else 0) + EngineLeft(EngineNow(p, cap))
  }

  // ----- the processors -----

  lemma ReceiveCounts(b: Buffer, lateness: int, i: Input)
    ensures var r := Reordering.Receive(b, lateness, i);
      |r.buffer.pending| + |r.out| == |b.pending| + (if i.Arrive? then 1 else 0)
  {
    hide Reordering.Receive;
    ReceiveMovesBoundary(b, lateness, i);
    if i.Arrive? {
      StableSort.InsertFacts(b.pending, Stamp, i.event);
    }
    var r := Reordering.Receive(b, lateness, i);
    assert |r.out + r.buffer.pending| == |r.out| + |r.buffer.pending|;
  }

  lemma FedWeighs(w: Worker, lateness: int, i: Input, queue: seq<Event>, done: bool)
    requires w.sending == [] && w.queue == (if i.Arrive? then [i.event] else []) + queue
    ensures var w' := Fed(w.(queue := queue), lateness, i).(done := done);
      && (i.Arrive? && done == w.done ==> Weight(w', lateness) < Weight(w, lateness))
      && (done == w.done ==> Weight(w', lateness) <= Weight(w, lateness))
      && (done && !w.done ==> Weight(w', lateness) < Weight(w, lateness))
  {
    hide Reordering.Receive, RunOn;
    RunOnSnoc(lateness, w.taken, i);
    ReceiveCounts(RunOn(lateness, w.taken).buffer, lateness, i);
  }

  lemma FedLess(p: Pipe, s: string, w': Worker, lateness: int, cap: nat)
    requires s in p.workers
    ensures var p' := p.(workers := p.workers[s := w']);
      Left(p', lateness, cap) - Left(p, lateness, cap) == Weight(w', lateness) - Weight(p.workers[s], lateness)
  {
    hide Weight, EngineSpec.After, EngineLeft;
    WeightsUpdate(p.workers, s, w', lateness);
  }

  lemma IngestLess(p: Pipe, s: string, lateness: int, cap: nat)
    requires Free(p, s) && p.workers[s].queue != []
    ensures Left(Advance(p, Ingest(s), lateness, cap), lateness, cap) < Left(p, lateness, cap)
  {
    hide Left, Fed, Weight;
    var w := p.workers[s];
    assert w.queue == [w.queue[0]] + w.queue[1..];
    FedWeighs(w, lateness, Arrive(w.queue[0]), w.queue[1..], w.done);
    DoneStays(w.(queue := w.queue[1..]), lateness, Arrive(w.queue[0]));
    FedLess(p, s, Fed(w.(queue := w.queue[1..]), lateness, Arrive(w.queue[0])), lateness, cap);
  }

  lemma DoneStays(w: Worker, lateness: int, i: Input)
    ensures Fed(w, lateness, i).(done := w.done) == Fed(w, lateness, i)
  {
    hide RunOn, Reordering.Receive;
  }

  lemma IdleNotMore(p: Pipe, s: string, lateness: int, cap: nat)
    requires Free(p, s)
    ensures Left(Advance(p, Idle(s), lateness, cap), lateness, cap) <= Left(p, lateness, cap)
  {
    hide Left, Fed, Weight;
    var w := p.workers[s];
    assert [] + w.queue == w.queue;
    FedWeighs(w, lateness, IdleTimeout, w.queue, w.done);
    assert w.(queue := w.queue) == w;
    DoneStays(w, lateness, IdleTimeout);
    FedLess(p, s, Fed(w, lateness, IdleTimeout), lateness, cap);
  }

  lemma DrainLess(p: Pipe, s: string, lateness: int, cap: nat)
    requires Free(p, s) && !p.inputOpen && p.workers[s].queue == []
    ensures Left(Advance(p, Drain(s), lateness, cap), lateness, cap) < Left(p, lateness, cap)
  {
    hide Left, Fed, Weight;
    var w := p.workers[s];
    FedWeighs(w, lateness, IdleTimeout, [], true);
    assert w.(queue := []) == w;
    FedLess(p, s, Fed(w, lateness, IdleTimeout).(done := true), lateness, cap);
  }

  lemma SendLess(p: Pipe, s: string, lateness: int, cap: nat)
    requires s in p.workers && p.workers[s].sending != []
    ensures Left(Advance(p, Send(s), lateness, cap), lateness, cap) < Left(p, lateness, cap)
  {
    hide EngineSpec.After, EngineLeft, RunOn;
    var w := p.workers[s];
    WeightsUpdate(p.workers, s, w.(sending := w.sending[1..]), lateness);
  }

  // ----- the engine -----

  lemma KeysAdd(m: map<string, seq<Event>>, s: string, es: seq<Event>)
    ensures |m[s := es]| <= |m| + 1
  {
    assert m[s := es].Keys == m.Keys + {s};
    assert |m.Keys| == |m| && |m[s := es].Keys| == |m[s := es]|;
  }

  lemma KeysLess(m: map<string, seq<Event>>, s: string)
    ensures |m - {s}| <= |m|
  {
    if s in m {
      OneLess(m, s);
    } else {
      assert m - {s} == m;
    }
  }

  lemma ConsumeAddsLittle(e: EngineState, ev: Event, cap: nat)
    ensures EngineLeft(Do(e, Consume(ev), cap)) <= EngineLeft(e) + 2
  {
    KeysAdd(e.ledger.buffers, ev.submission, Buffered(e.ledger, ev.submission) + [ev]);
    KeysLess(e.ledger.buffers, ev.submission);
  }

  lemma TurnNotMore(e: EngineState, step: EngineStep, cap: nat)
    requires !step.Consume? && (e.phase.Flushing? ==> Enumerates(e.phase.left, e.ledger.buffers.Keys))
    ensures EngineLeft(Do(e, step, cap)) <= EngineLeft(e)
  {
    hide MayFinalize, Enumerates, Buffered;
    if step.FlushOne? && e.phase.Flushing? && e.phase.left != [] {
      FirstOfEnumeration(e.phase.left, e.ledger.buffers.Keys);
      OneFewer(e.ledger.buffers, e.phase.left[0]);
    }
  }

  lemma HearLess(p: Pipe, lateness: int, cap: nat)
    requires p.merged != [] && EngineNow(p, cap).phase.Reading?
    ensures Left(Advance(p, Hear, lateness, cap), lateness, cap) < Left(p, lateness, cap)
  {
    hide EngineLeft, Do, Weights, EngineSpec.After;
    HearIs(p, lateness, cap);
    HeardSnoc(p.steps, Consume(p.merged[0]), cap);
    ConsumeAddsLittle(EngineNow(p, cap), p.merged[0], cap);
  }

  lemma TurnChanges(p: Pipe, step: EngineStep, lateness: int, cap: nat)
    requires MayTurn(p, step)
    ensures Left(Advance(p, Turn(step), lateness, cap), lateness, cap) - Left(p, lateness, cap)
         == EngineLeft(Do(EngineNow(p, cap), step, cap)) - EngineLeft(EngineNow(p, cap))
  {
    hide EngineLeft, Do, Weights, EngineSpec.After;
    HeardSnoc(p.steps, step, cap);
  }

  // ----- the whole pipeline -----

  lemma EngineEnumerates(p: Pipe, cap: nat)
    ensures EngineNow(p, cap).phase.Flushing? ==>
      Enumerates(EngineNow(p, cap).phase.left, EngineNow(p, cap).ledger.buffers.Keys)
  {
    hide EngineSpec.After, Enumerates;
    if EngineNow(p, cap).phase.Flushing? {
      FlushingEnumerates(p.steps, cap);
    }
  }

  /** Once the input is closed no move leads away from the end. */
  lemma NeverFurther(p: Pipe, m: Move, lateness: int, cap: nat)
    requires !p.inputOpen
    ensures Left(Advance(p, m, lateness, cap), lateness, cap) <= Left(p, lateness, cap)
    ensures !Advance(p, m, lateness, cap).inputOpen
  {
    hide Left, Fed, EngineNow, Do;
    match m {
      case Ingest(s) =>
        if Free(p, s) && p.workers[s].queue != [] {
          IngestLess(p, s, lateness, cap);
        }
      case Idle(s) =>
        if Free(p, s) {
          IdleNotMore(p, s, lateness, cap);
        }
      case Drain(s) =>
        if Free(p, s) && p.workers[s].queue == [] {
          DrainLess(p, s, lateness, cap);
        }
      case Send(s) =>
        if s in p.workers && p.workers[s].sending != [] {
          SendLess(p, s, lateness, cap);
        }
      case Hear =>
        if p.merged != [] && EngineNow(p, cap).phase.Reading? {
          HearLess(p, lateness, cap);
        }
      case Turn(step) =>
        if MayTurn(p, step) {
          EngineEnumerates(p, cap);
          TurnNotMore(EngineNow(p, cap), step, cap);
          TurnChanges(p, step, lateness, cap);
        }
      case _ =>
        ClosingNotMore(p, lateness, cap);
    }
  }

  lemma ClosingNotMore(p: Pipe, lateness: int, cap: nat)
    requires !p.inputOpen
    ensures p.(inputOpen := false) == p
    ensures p.outOpen ==> Left(p.(outOpen := false), lateness, cap) < Left(p, lateness, cap)
    ensures !p.outOpen ==> p.(outOpen := false) == p
  {
    hide EngineLeft, Weights, EngineSpec.After;
  }

  lemma {:induction false} EnumerationExists(keys: set<string>) returns (order: seq<string>)
    ensures Enumerates(order, keys)
    decreases keys
  {
    if keys == {} {
      order := [];
    } else {
      var s :| s in keys;
      var rest := EnumerationExists(keys - {s});
      order := [s] + rest;
      assert order[1..] == rest && s !in (set x | x in rest);
      assert forall x :: x in order <==> x == s || x in rest;
      assert (set x | x in order) == {s} + (set x | x in rest);
    }
  }

  /** The engine's part: it can always be taken nearer to its end once its input is closed and empty. */
  lemma EngineMoves(p: Pipe, lateness: int, cap: nat) returns (m: Move)
    requires 0 < cap && !p.outOpen && p.merged == [] && !EngineNow(p, cap).phase.Closed?
    ensures Left(Advance(p, m, lateness, cap), lateness, cap) < Left(p, lateness, cap)
  {
    hide Left, EngineSpec.After, Enumerates, MayFinalize, Advance;
    var e := EngineNow(p, cap);
    var step;
    if e.phase.Reading? {
      var order := EnumerationExists(e.ledger.buffers.Keys);
      step := InputClosed(order);
      assert EngineLeft(Do(e, step, cap)) < EngineLeft(e);
    } else {
      step := NeverStuck(p.steps, cap);
      NotClosing(e, step, cap);
    }
    m := Turn(step);
    TurnChanges(p, step, lateness, cap);
  }

  /** A step that makes the flushing engine's work less is one of its own. */
  lemma NotClosing(e: EngineState, step: EngineStep, cap: nat)
    requires e.phase.Flushing? && LeftToDo(Do(e, step, cap)) < LeftToDo(e)
    ensures !step.Consume? && !step.InputClosed? && EngineLeft(Do(e, step, cap)) < EngineLeft(e)
  {
    hide MayFinalize, Enumerates;
  }

  lemma ChannelsAt(p: Pipe, lateness: int, cap: nat)
    requires PipeOk(p, lateness, cap)
    ensures !EngineNow(p, cap).phase.Reading? ==> !p.outOpen && p.merged == []
  {
    hide WorkerOk, Silent, EngineNow;
  }

  /**
   And from every state some move brings it nearer, one that needs no room in the shared channel beyond one event, so
   that a bounded channel does not stop it.
   */
  lemma AlwaysNearer(p: Pipe, lateness: int, cap: nat) returns (m: Move)
    requires 0 < cap && PipeOk(p, lateness, cap) && !p.inputOpen && !EngineNow(p, cap).phase.Closed?
    ensures Left(Advance(p, m, lateness, cap), lateness, cap) < Left(p, lateness, cap)
    ensures m.Send? ==> p.merged == []
  {
    hide Left, PipeOk, EngineNow, Fed, Do;
    ChannelsAt(p, lateness, cap);
    if p.merged != [] {
      m := Hear;
      HearLess(p, lateness, cap);
    } else if s :| s in p.workers && p.workers[s].sending != [] {
      m := Send(s);
      SendLess(p, s, lateness, cap);
    } else if s :| s in p.workers && !p.workers[s].done {
      if p.workers[s].queue != [] {
        m := Ingest(s);
        IngestLess(p, s, lateness, cap);
      } else {
        m := Drain(s);
        DrainLess(p, s, lateness, cap);
      }
    } else if p.outOpen {
      m := CloseOut;
      ClosingNotMore(p, lateness, cap);
    } else {
      m := EngineMoves(p, lateness, cap);
    }
  }

  lemma PipedSnoc(moves: seq<Move>, m: Move, lateness: int, cap: nat)
    ensures Piped(moves + [m], lateness, cap) == Advance(Piped(moves, lateness, cap), m, lateness, cap)
  {
    hide Advance;
    assert (moves + [m])[..|moves|] == moves;
  }

  lemma {:induction false} CanCloseFrom(moves: seq<Move>, lateness: int, cap: nat) returns (more: seq<Move>)
    requires 0 < cap && !Piped(moves, lateness, cap).inputOpen
    ensures EngineNow(Piped(moves + more, lateness, cap), cap).phase.Closed?
    decreases Left(Piped(moves, lateness, cap), lateness, cap)
  {
    hide Left, PipeOk, EngineNow, Advance, Piped;
    var p := Piped(moves, lateness, cap);
    if EngineNow(p, cap).phase.Closed? {
      more := [];
      assert moves + [] == moves;
    } else {
      EveryPipeIsOk(moves, lateness, cap);
      var m := AlwaysNearer(p, lateness, cap);
      NeverFurther(p, m, lateness, cap);
      PipedSnoc(moves, m, lateness, cap);
      var rest := CanCloseFrom(moves + [m], lateness, cap);
      more := [m] + rest;
      assert moves + more == moves + [m] + rest;
    }
  }

  /** So no interleaving ever gets stuck: whatever has happened, the pipeline can still close its updates channel. */
  lemma EveryPipeCanClose(moves: seq<Move>, lateness: int, cap: nat) returns (more: seq<Move>)
    requires 0 < cap
    ensures EngineNow(Piped(moves + more, lateness, cap), cap).phase.Closed?
  {
    hide EngineNow, Piped;
    PipedSnoc(moves, CloseInput, lateness, cap);
    var rest := CanCloseFrom(moves + [CloseInput], lateness, cap);
    more := [CloseInput] + rest;
    assert moves + more == moves + [CloseInput] + rest;
  }
}
