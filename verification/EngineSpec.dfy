/**
 The engine around the replay: events are buffered per submission, an end-of-run marker hands the buffer to a worker,
 workers replay under a semaphore, and the updates channel is closed when the last of them has sent its verdict.
 Any interleaving of the main loop and the workers is a sequence of `EngineStep`s.
 */
module EngineSpec {
  import opened MarketTypes
  import opened ReplaySpec

  /** A submission's events, lifted off the buffers and owned by one worker. */
  datatype Job = Job(submission: string, events: seq<Event>)

  datatype Update = Update(submission: string, verdict: Verdict)

  /** The main loop's bookkeeping. */
  datatype Ledger = Ledger(buffers: map<string, seq<Event>>, finalized: set<string>)

  function Buffered(l: Ledger, s: string): seq<Event> {
    if s in l.buffers then l.buffers[s] else []
  }

  function Taken(l: Ledger, s: string): Ledger {
    Ledger(l.buffers - {s}, l.finalized + {s})
  }

  predicate Ignored(l: Ledger, e: Event) {
    e.submission == "" || e.submission in l.finalized
  }

  /** The ledger after one event of the input. */
  function Heed(l: Ledger, e: Event): Ledger {
    if Ignored(l, e) then l
    else if e.endOfRun then Taken(l, e.submission)
    else l.(buffers := l.buffers[e.submission := Buffered(l, e.submission) + [e]])
  }

  /** The worker that event starts, if any. */
  function Started(l: Ledger, e: Event): seq<Job> {
    if Ignored(l, e) || !e.endOfRun then [] else [Job(e.submission, Buffered(l, e.submission) + [e])]
  }

  /** Reading the input; flushing what is left in some order; or done, the updates channel closed. */
  datatype Phase = Reading | Flushing(left: seq<string>) | Closed

  datatype EngineState = EngineState(ledger: Ledger, waiting: seq<Job>, running: seq<Job>, sent: seq<Update>, phase: Phase)

  const IDLE := EngineState(Ledger(map[], {}), [], [], [], Reading)

  datatype EngineStep =
    | Consume(event: Event)
    | InputClosed(order: seq<string>)
    | FlushOne(verdict: Verdict)
    | Acquire(i: nat)
    | Finish(i: nat, verdict: Verdict)
    | CloseUpdates

  predicate Distinct(xs: seq<string>) {
    xs == [] || (xs[0] !in xs[1..] && Distinct(xs[1..]))
  }

  predicate Enumerates(xs: seq<string>, keys: set<string>) {
    Distinct(xs) && (set x | x in xs) == keys
  }

  function Drop<T>(xs: seq<T>, i: nat): seq<T>
    requires i < |xs|
  {
    xs[..i] + xs[i + 1..]
  }

  /** One step of the loop or of a worker; a step that is not enabled changes nothing. `cap` is the semaphore's size. */
  ghost function Do(e: EngineState, step: EngineStep, cap: nat): EngineState {
    match step
    case Consume(ev) =>
      if !e.phase.Reading? then e
      else e.(ledger := Heed(e.ledger, ev), waiting := e.waiting + Started(e.ledger, ev))
    case InputClosed(order) =>
      if e.phase.Reading? && Enumerates(order, e.ledger.buffers.Keys) then e.(phase := Flushing(order)) else e
    case FlushOne(v) =>
      if e.phase.Flushing? && e.phase.left != [] && MayFinalize(Buffered(e.ledger, e.phase.left[0]), v) then
        var s := e.phase.left[0];
        e.(ledger := Taken(e.ledger, s), sent := e.sent + [Update(s, v)], phase := Flushing(e.phase.left[1..]))
      else e
    case Acquire(i) =>
      if i < |e.waiting| && |e.running| < cap then
        e.(waiting := Drop(e.waiting, i), running := e.running + [e.waiting[i]])
      else e
    case Finish(i, v) =>
      if i < |e.running| && MayFinalize(e.running[i].events, v) then
        e.(running := Drop(e.running, i), sent := e.sent + [Update(e.running[i].submission, v)])
      else e
    case CloseUpdates =>
      if e.phase == Flushing([]) && e.waiting == [] && e.running == [] then e.(phase := Closed) else e
  }

  ghost function After(steps: seq<EngineStep>, cap: nat): EngineState {
    if steps == [] then IDLE else Do(After(steps[..|steps| - 1], cap), steps[|steps| - 1], cap)
  }

  /** The events the main loop took from its input, in order. */
  ghost function Heard(steps: seq<EngineStep>, cap: nat): seq<Event> {
    if steps == [] then []
    else
      var front, step := steps[..|steps| - 1], steps[|steps| - 1];
      Heard(front, cap) + (if step.Consume? && After(front, cap).phase.Reading? then [step.event] else [])
  }

  function Own(es: seq<Event>, s: string): seq<Event> {
    if es == [] then []
    else Own(es[..|es| - 1], s) + (if es[|es| - 1].submission == s then [es[|es| - 1]] else [])
  }

  /** A submission's events up to and including its first end marker. */
  function UpToEnd(es: seq<Event>): seq<Event> {
    if es != [] && HasEnd(es[..|es| - 1]) then UpToEnd(es[..|es| - 1]) else es
  }

  // ----- what every run keeps -----

  function JobNames(js: seq<Job>): seq<string> {
    seq(|js|, i requires 0 <= i < |js| => js[i].submission)
  }

  function UpdateNames(us: seq<Update>): seq<string> {
    seq(|us|, i requires 0 <= i < |us| => us[i].submission)
  }

  /** Every submission some worker or update is about, as often as it is. */
  function Names(e: EngineState): multiset<string> {
    multiset(JobNames(e.waiting)) + multiset(JobNames(e.running)) + multiset(UpdateNames(e.sent))
  }

  /** Buffers hold whole submissions that have not ended, and everything heard is either buffered or final. */
  ghost predicate BuffersOk(l: Ledger, heard: seq<Event>) {
    && (forall s :: s in l.buffers ==>
          && s != "" && s !in l.finalized
          && l.buffers[s] == Own(heard, s) && l.buffers[s] != [] && !HasEnd(l.buffers[s]))
    && (forall s :: s in l.finalized ==> s != "" && Own(heard, s) != [])
    && (forall s :: s != "" && Own(heard, s) != [] ==> s in l.buffers || s in l.finalized)
  }

  ghost predicate JobsOk(js: seq<Job>, heard: seq<Event>) {
    forall j :: j in js ==> j.events == UpToEnd(Own(heard, j.submission))
  }

  ghost predicate UpdatesOk(us: seq<Update>, heard: seq<Event>) {
    forall u :: u in us ==> MayFinalize(UpToEnd(Own(heard, u.submission)), u.verdict)
  }

  ghost predicate PhaseOk(e: EngineState, heard: seq<Event>) {
    match e.phase
    case Reading => forall s :: s in e.ledger.finalized ==> HasEnd(Own(heard, s))
    case Flushing(left) => Enumerates(left, e.ledger.buffers.Keys)
    case Closed => e.ledger.buffers == map[] && e.waiting == [] && e.running == []
  }

  ghost predicate EngineOk(e: EngineState, heard: seq<Event>, cap: nat) {
    && BuffersOk(e.ledger, heard)
    && JobsOk(e.waiting, heard) && JobsOk(e.running, heard) && UpdatesOk(e.sent, heard)
    && Names(e) == multiset(e.ledger.finalized)
    && |e.running| <= cap
    && PhaseOk(e, heard)
  }

  // ----- a submission's own events -----

  lemma {:induction false} UpToEndFacts(es: seq<Event>)
    ensures !HasEnd(es) ==> UpToEnd(es) == es
    ensures HasEnd(UpToEnd(es)) <==> HasEnd(es)
    ensures UpToEnd(es) <= es
  {
    if es != [] {
      UpToEndFacts(es[..|es| - 1]);
      assert forall e :: e in es[..|es| - 1] ==> e in es;
    }
  }

  lemma UpToEndGrows(es: seq<Event>, e: Event)
    ensures UpToEnd(es + [e]) == if HasEnd(es) then UpToEnd(es) else es + [e]
  {
    assert (es + [e])[..|es|] == es;
  }

  lemma HasEndSnoc(es: seq<Event>, e: Event)
    ensures HasEnd(es + [e]) <==> HasEnd(es) || e.endOfRun
  {
    if HasEnd(es) {
      var x :| x in es && x.endOfRun;
      assert x in es + [e];
    }
    if e.endOfRun {
      assert e in es + [e];
    }
  }

  lemma OwnSnoc(es: seq<Event>, e: Event, s: string)
    ensures Own(es + [e], s) == if e.submission == s then Own(es, s) + [e] else Own(es, s)
  {
    assert (es + [e])[..|es|] == es;
    assert Own(es, s) + [] == Own(es, s);
  }

  // ----- the main loop keeps the ledger -----

  lemma IgnoredKeepsBuffers(l: Ledger, heard: seq<Event>, ev: Event)
    requires BuffersOk(l, heard) && Ignored(l, ev)
    ensures BuffersOk(l, heard + [ev])
  {
    hide HasEnd, Own;
    forall s ensures Own(heard + [ev], s) == if ev.submission == s then Own(heard, s) + [ev] else Own(heard, s) {
      OwnSnoc(heard, ev, s);
    }
  }

  lemma EndedKeepsBuffers(l: Ledger, heard: seq<Event>, ev: Event)
    requires BuffersOk(l, heard) && !Ignored(l, ev) && ev.endOfRun
    ensures BuffersOk(Taken(l, ev.submission), heard + [ev])
  {
    hide HasEnd, Own;
    forall s ensures Own(heard + [ev], s) == if ev.submission == s then Own(heard, s) + [ev] else Own(heard, s) {
      OwnSnoc(heard, ev, s);
    }
  }

  lemma BufferedKeepsBuffers(l: Ledger, heard: seq<Event>, ev: Event)
    requires BuffersOk(l, heard) && !Ignored(l, ev) && !ev.endOfRun
    ensures BuffersOk(l.(buffers := l.buffers[ev.submission := Buffered(l, ev.submission) + [ev]]), heard + [ev])
  {
    hide HasEnd, Own;
    forall s ensures Own(heard + [ev], s) == if ev.submission == s then Own(heard, s) + [ev] else Own(heard, s) {
      OwnSnoc(heard, ev, s);
    }
    HasEndSnoc(Buffered(l, ev.submission), ev);
    NoEndInNothing();
    assert Buffered(l, ev.submission) == Own(heard, ev.submission);
  }

  lemma HeedKeepsBuffers(l: Ledger, heard: seq<Event>, ev: Event)
    requires BuffersOk(l, heard)
    ensures BuffersOk(Heed(l, ev), heard + [ev])
  {
    hide BuffersOk;
    if Ignored(l, ev) {
      IgnoredKeepsBuffers(l, heard, ev);
    } else if ev.endOfRun {
      EndedKeepsBuffers(l, heard, ev);
    } else {
      BufferedKeepsBuffers(l, heard, ev);
    }
  }

  lemma NoEndInNothing()
    ensures !HasEnd([])
  {
  }

  /** A submission's events up to its end do not change any more once it is final. */
  lemma FinalStaysFinal(l: Ledger, heard: seq<Event>, ev: Event, s: string)
    requires forall t :: t in l.finalized ==> HasEnd(Own(heard, t))
    requires s in l.finalized
    ensures UpToEnd(Own(heard + [ev], s)) == UpToEnd(Own(heard, s)) && HasEnd(Own(heard + [ev], s))
  {
    hide HasEnd;
    OwnSnoc(heard, ev, s);
    UpToEndGrows(Own(heard, s), ev);
    HasEndSnoc(Own(heard, s), ev);
  }

  /** The worker an event starts gets exactly that submission's events, which end with it. */
  lemma StartedGetsOwn(l: Ledger, heard: seq<Event>, ev: Event)
    requires BuffersOk(l, heard) && !Ignored(l, ev) && ev.endOfRun
    ensures Started(l, ev) == [Job(ev.submission, UpToEnd(Own(heard + [ev], ev.submission)))]
    ensures HasEnd(Own(heard + [ev], ev.submission))
  {
    hide HasEnd;
    var own := Own(heard, ev.submission);
    assert Buffered(l, ev.submission) == own;
    OwnSnoc(heard, ev, ev.submission);
    NoEndInNothing();
    UpToEndGrows(own, ev);
    HasEndSnoc(own, ev);
  }

  // ----- names -----

  lemma NamesOfDrop(js: seq<Job>, i: nat)
    requires i < |js|
    ensures multiset(JobNames(Drop(js, i))) == multiset(JobNames(js)) - multiset{js[i].submission}
  {
    var names := JobNames(js);
    assert JobNames(Drop(js, i)) == names[..i] + names[i + 1..];
    assert names == names[..i] + [names[i]] + names[i + 1..];
  }

  lemma NamesOfSnoc(js: seq<Job>, j: Job)
    ensures multiset(JobNames(js + [j])) == multiset(JobNames(js)) + multiset{j.submission}
  {
    assert JobNames(js + [j]) == JobNames(js) + [j.submission];
  }

  lemma NamesOfUpdate(us: seq<Update>, u: Update)
    ensures multiset(UpdateNames(us + [u])) == multiset(UpdateNames(us)) + multiset{u.submission}
  {
    assert UpdateNames(us + [u]) == UpdateNames(us) + [u.submission];
  }

  lemma JobNamed(js: seq<Job>, j: Job)
    requires j in js
    ensures j.submission in multiset(JobNames(js))
  {
    var i :| 0 <= i < |js| && js[i] == j;
    assert JobNames(js)[i] == j.submission;
  }

  lemma UpdateNamed(us: seq<Update>, u: Update)
    requires u in us
    ensures u.submission in multiset(UpdateNames(us))
  {
    var i :| 0 <= i < |us| && us[i] == u;
    assert UpdateNames(us)[i] == u.submission;
  }

  lemma NewName(finalized: set<string>, s: string)
    requires s !in finalized
    ensures multiset(finalized + {s}) == multiset(finalized) + multiset{s}
  {
  }

  // ----- each step keeps the invariant -----

  lemma ConsumeKeeps(e: EngineState, heard: seq<Event>, ev: Event, cap: nat)
    requires EngineOk(e, heard, cap) && e.phase.Reading?
    ensures EngineOk(Do(e, Consume(ev), cap), heard + [ev], cap)
  {
    hide HasEnd, BuffersOk, MayFinalize, UpToEnd, Own, Heed;
    var e' := Do(e, Consume(ev), cap);
    HeedKeepsBuffers(e.ledger, heard, ev);
    forall s | s in e.ledger.finalized
      ensures UpToEnd(Own(heard + [ev], s)) == UpToEnd(Own(heard, s)) && HasEnd(Own(heard + [ev], s))
    {
      FinalStaysFinal(e.ledger, heard, ev, s);
    }
    JobsStayOk(e, e.waiting, heard, ev);
    JobsStayOk(e, e.running, heard, ev);
    UpdatesStayOk(e, heard, ev);
    ConsumeNames(e, heard, ev);
  }

  ghost predicate FinalAlike(e: EngineState, heard: seq<Event>, ev: Event) {
    forall s :: s in e.ledger.finalized ==> UpToEnd(Own(heard + [ev], s)) == UpToEnd(Own(heard, s))
  }

  lemma JobsStayOk(e: EngineState, js: seq<Job>, heard: seq<Event>, ev: Event)
    requires FinalAlike(e, heard, ev) && JobsOk(js, heard)
    requires Names(e) == multiset(e.ledger.finalized) && (js == e.waiting || js == e.running)
    ensures JobsOk(js, heard + [ev])
  {
    hide UpToEnd, Own;
    forall j | j in js ensures j.events == UpToEnd(Own(heard + [ev], j.submission)) {
      JobNamed(js, j);
      assert j.submission in Names(e);
    }
  }

  lemma UpdatesStayOk(e: EngineState, heard: seq<Event>, ev: Event)
    requires FinalAlike(e, heard, ev) && UpdatesOk(e.sent, heard) && Names(e) == multiset(e.ledger.finalized)
    ensures UpdatesOk(e.sent, heard + [ev])
  {
    hide UpToEnd, Own, MayFinalize;
    forall u | u in e.sent ensures MayFinalize(UpToEnd(Own(heard + [ev], u.submission)), u.verdict) {
      UpdateNamed(e.sent, u);
      assert u.submission in Names(e);
    }
  }

  lemma ConsumeNames(e: EngineState, heard: seq<Event>, ev: Event)
    requires BuffersOk(e.ledger, heard) && Names(e) == multiset(e.ledger.finalized)
    requires JobsOk(e.waiting, heard + [ev])
    requires forall s :: s in e.ledger.finalized ==> HasEnd(Own(heard + [ev], s))
    ensures var e' := e.(ledger := Heed(e.ledger, ev), waiting := e.waiting + Started(e.ledger, ev));
      && Names(e') == multiset(e'.ledger.finalized)
      && JobsOk(e'.waiting, heard + [ev])
      && (forall s :: s in e'.ledger.finalized ==> HasEnd(Own(heard + [ev], s)))
  {
    hide HasEnd, BuffersOk, UpToEnd, Own;
    if !Ignored(e.ledger, ev) && ev.endOfRun {
      StartedGetsOwn(e.ledger, heard, ev);
      NamesOfSnoc(e.waiting, Started(e.ledger, ev)[0]);
      NewName(e.ledger.finalized, ev.submission);
    } else {
      assert e.waiting + [] == e.waiting;
    }
  }

  lemma FirstOfEnumeration(left: seq<string>, keys: set<string>)
    requires Enumerates(left, keys) && left != []
    ensures left[0] in keys && Enumerates(left[1..], keys - {left[0]})
  {
    assert forall x :: x in left <==> x == left[0] || x in left[1..];
    assert left[0] in left;
  }

  lemma TakenKeepsBuffers(l: Ledger, heard: seq<Event>, s: string)
    requires BuffersOk(l, heard) && s in l.buffers
    ensures BuffersOk(Taken(l, s), heard)
    ensures !HasEnd(Buffered(l, s)) && Buffered(l, s) == UpToEnd(Own(heard, s)) && s !in l.finalized
  {
    hide HasEnd, Own;
    UpToEndFacts(Own(heard, s));
  }

  lemma FlushKeeps(e: EngineState, heard: seq<Event>, v: Verdict, cap: nat)
    requires EngineOk(e, heard, cap)
    ensures EngineOk(Do(e, FlushOne(v), cap), heard, cap)
  {
    hide HasEnd, BuffersOk, MayFinalize, UpToEnd, Own, Enumerates;
    if e.phase.Flushing? && e.phase.left != [] && MayFinalize(Buffered(e.ledger, e.phase.left[0]), v) {
      var s := e.phase.left[0];
      FirstOfEnumeration(e.phase.left, e.ledger.buffers.Keys);
      TakenKeepsBuffers(e.ledger, heard, s);
      NamesOfUpdate(e.sent, Update(s, v));
      NewName(e.ledger.finalized, s);
      assert (e.ledger.buffers - {s}).Keys == e.ledger.buffers.Keys - {s};
    }
  }

  lemma AcquireKeeps(e: EngineState, heard: seq<Event>, i: nat, cap: nat)
    requires EngineOk(e, heard, cap)
    ensures EngineOk(Do(e, Acquire(i), cap), heard, cap)
  {
    hide HasEnd, BuffersOk, MayFinalize, UpToEnd, Own, Enumerates;
    if i < |e.waiting| && |e.running| < cap {
      NamesOfDrop(e.waiting, i);
      NamesOfSnoc(e.running, e.waiting[i]);
      JobNamed(e.waiting, e.waiting[i]);
    }
  }

  lemma JobsOkDrop(js: seq<Job>, heard: seq<Event>, i: nat)
    requires JobsOk(js, heard) && i < |js|
    ensures JobsOk(Drop(js, i), heard) && js[i].events == UpToEnd(Own(heard, js[i].submission))
  {
    hide UpToEnd, Own;
    assert js[i] in js;
  }

  lemma FinishKeeps(e: EngineState, heard: seq<Event>, i: nat, v: Verdict, cap: nat)
    requires EngineOk(e, heard, cap)
    ensures EngineOk(Do(e, Finish(i, v), cap), heard, cap)
  {
    hide HasEnd, BuffersOk, MayFinalize, UpToEnd, Own, Enumerates, JobsOk;
    if i < |e.running| && MayFinalize(e.running[i].events, v) {
      JobsOkDrop(e.running, heard, i);
      NamesOfDrop(e.running, i);
      NamesOfUpdate(e.sent, Update(e.running[i].submission, v));
      JobNamed(e.running, e.running[i]);
    }
  }

  lemma CloseKeeps(e: EngineState, heard: seq<Event>, order: seq<string>, cap: nat)
    requires EngineOk(e, heard, cap)
    ensures EngineOk(Do(e, InputClosed(order), cap), heard, cap)
    ensures EngineOk(Do(e, CloseUpdates, cap), heard, cap)
  {
    hide HasEnd, BuffersOk, MayFinalize, UpToEnd, Own;
    if e.phase == Flushing([]) {
      assert e.ledger.buffers.Keys == {};
    }
  }
}
