/** The engine's main loop in the source's own shape: two maps updated in place. */
module EngineRun {
  import opened MarketTypes
  import opened EngineSpec

  class Engine {
    var buffers: map<string, seq<Event>>
    var finalized: set<string>

    ghost function View(): Ledger
      reads this
    {
      Ledger(buffers, finalized)
    }

    constructor ()
      ensures View() == IDLE.ledger
    {
      buffers, finalized := map[], {};
    }

    /** One event off the input; `dispatched` is the worker it starts, if any. */
    method Receive(event: Event) returns (dispatched: seq<Job>)
      modifies this
      ensures View() == Heed(old(View()), event) && dispatched == Started(old(View()), event)
    {
      if event.submission == "" {
        return [];
      }
      if event.submission in finalized {
        return [];
      }
      var held := if event.submission in buffers then buffers[event.submission] else [];
      buffers := buffers[event.submission := held + [event]];
      if event.endOfRun {
        var events := TakeEvents(event.submission);
        ghost var before := old(View());
        assert before.buffers[event.submission := held + [event]] - {event.submission} == before.buffers - {event.submission};
        return [Job(event.submission, events)];
      }
      return [];
    }

    method TakeEvents(submission: string) returns (events: seq<Event>)
      modifies this
      ensures View() == Taken(old(View()), submission) && events == Buffered(old(View()), submission)
    {
      events := if submission in buffers then buffers[submission] else [];
      buffers := buffers - {submission};
      finalized := finalized + {submission};
    }

    /** The whole main loop until the input closes: what it leaves buffered and the workers it started, in order. */
    method Drain(input: seq<Event>) returns (dispatched: seq<Job>)
      modifies this
      ensures View() == HeedAll(old(View()), input) && dispatched == StartedBy(old(View()), input)
    {
      dispatched := [];
      for i := 0 to |input|
        invariant View() == HeedAll(old(View()), input[..i]) && dispatched == StartedBy(old(View()), input[..i])
      {
        assert input[..i + 1][..i] == input[..i];
        var jobs := Receive(input[i]);
        dispatched := dispatched + jobs;
      }
      assert input[..|input|] == input;
    }
  }

  function HeedAll(l: Ledger, es: seq<Event>): Ledger {
    if es == [] then l else Heed(HeedAll(l, es[..|es| - 1]), es[|es| - 1])
  }

  function StartedBy(l: Ledger, es: seq<Event>): seq<Job> {
    if es == [] then [] else StartedBy(l, es[..|es| - 1]) + Started(HeedAll(l, es[..|es| - 1]), es[|es| - 1])
  }
}
