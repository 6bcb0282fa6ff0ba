/** The router's loop in the source's own shape: a map from submission to the channel of its processor. */
module RouterLoop {
  import opened MarketTypes
  import opened EngineSpec

  /** Every named submission has its own events, in order, and nobody else's. */
  ghost predicate FannedOut(workers: map<string, seq<Event>>, taken: seq<Event>) {
    forall s :: (if s in workers then workers[s] else []) == (if s == "" then [] else Own(taken, s))
  }

  lemma NothingFannedOut()
    ensures FannedOut(map[], [])
  {
  }

  lemma Reached(taken: seq<Event>, event: Event, workers: map<string, seq<Event>>)
    requires FannedOut(workers, taken)
    ensures event.submission == "" ==> FannedOut(workers, taken + [event])
    ensures event.submission != "" ==>
      var queue := (if event.submission in workers then workers[event.submission] else []) + [event];
      FannedOut(workers[event.submission := queue], taken + [event])
  {
    hide Own;
    forall s ensures Own(taken + [event], s) == if event.submission == s then Own(taken, s) + [event] else Own(taken, s) {
      OwnSnoc(taken, event, s);
    }
  }

  class Router {
    var workers: map<string, seq<Event>>

    constructor ()
      ensures workers == map[]
    {
      workers := map[];
    }

    method Run(input: seq<Event>)
      requires workers == map[]
      modifies this
      ensures FannedOut(workers, input)
    {
      hide FannedOut;
      NothingFannedOut();
      for i := 0 to |input|
        invariant FannedOut(workers, input[..i])
      {
        var event := input[i];
        assert input[..i + 1] == input[..i] + [event];
        Reached(input[..i], event, workers);
        ghost var before := workers;
        if event.submission == "" {
          continue;
        }
        if event.submission !in workers {
          workers := workers[event.submission := []];
        }
        workers := workers[event.submission := workers[event.submission] + [event]];
        assert workers == before[event.submission := workers[event.submission]];
      }
      assert input[..|input|] == input;
    }
  }
}
