/** The processor: the buffer of `Reordering` on a heap. */
module Watermark {
  import opened MarketTypes
  import opened StableSort
  import opened EventHeaps
  import opened Reordering

  const DEFAULT_ALLOWED_LATENESS_MICROS := 2_000_000

  function EventsOf(qs: seq<Queued>): seq<Event> {
    if qs == [] then [] else [qs[0].event] + EventsOf(qs[1..])
  }

  lemma {:induction false} EventsOfInsert(qs: seq<Queued>, q: Queued)
    ensures EventsOf(InsertByKey(qs, TimeOf, q)) == InsertByKey(EventsOf(qs), Stamp, q.event)
  {
    if qs == [] || TimeOf(q) < TimeOf(qs[0]) {
      assert ([q] + qs)[1..] == qs;
    } else {
      EventsOfInsert(qs[1..], q);
      assert ([qs[0]] + InsertByKey(qs[1..], TimeOf, q))[1..] == InsertByKey(qs[1..], TimeOf, q);
      assert EventsOf(qs)[1..] == EventsOf(qs[1..]);
    }
  }

  ghost predicate Numbered(pending: seq<Queued>, next: nat) {
    forall p :: p in pending ==> p.sequence < next
  }

  lemma NumberedInsert(pending: seq<Queued>, q: Queued)
    requires Numbered(pending, q.sequence)
    ensures Numbered(InsertByKey(pending, TimeOf, q), q.sequence + 1)
  {
    InsertFacts(pending, TimeOf, q);
  }

  lemma OneReady(pending: seq<Event>, watermark: int, i: nat)
    requires i < |pending|
    ensures ReadyCount(pending[i..], watermark)
         == if watermark < pending[i].timestamp then 0 else 1 + ReadyCount(pending[i + 1..], watermark)
  {
    assert pending[i..][1..] == pending[i + 1..];
  }

  class Processor {
    var maxSeenTimestamp: int
    const allowedLateness: int
    const events: EventHeap
    var nextSequence: nat
    ghost var pending: seq<Queued>

    ghost function View(): Buffer
      reads this
    {
      Buffer(maxSeenTimestamp, EventsOf(pending))
    }

    ghost predicate Valid()
      reads this, events
    {
      Stands(events.items, pending) && Numbered(pending, nextSequence)
    }

    constructor (allowedLatenessMicros: int)
      ensures Valid() && View() == FRESH && fresh(events)
      ensures allowedLateness == if allowedLatenessMicros < 0 then 2_000_000 else allowedLatenessMicros
    {
      maxSeenTimestamp, nextSequence, pending := 0, 0, [];
      events := new EventHeap();
      allowedLateness := if allowedLatenessMicros < 0 then DEFAULT_ALLOWED_LATENESS_MICROS else allowedLatenessMicros;
    }

    function Cutoff(): int
      reads this
    {
      maxSeenTimestamp - allowedLateness
    }

    method Enqueue(event: Event)
      requires Valid()
      modifies this, events
      ensures Valid() && View() == Enqueued(old(View()), event)
    {
      hide Stands, InsertByKey, Numbered;
      var q := Queued(event, nextSequence);
      ghost var items := events.items;
      StandsIsHeap(items, pending);
      events.HeapPush(q);
      NumberedBelow(pending, q);
      PushStands(items, pending, q, events.items);
      EventsOfInsert(pending, q);
      NumberedInsert(pending, q);
      pending := InsertByKey(pending, TimeOf, q);
      nextSequence := nextSequence + 1;
      if event.timestamp > maxSeenTimestamp {
        maxSeenTimestamp := event.timestamp;
      }
    }

    lemma StandsIsHeap(items: seq<Queued>, pending: seq<Queued>)
      requires Stands(items, pending)
      ensures HeapTo(items, |items|)
    {
    }

    lemma NumberedBelow(pending: seq<Queued>, q: Queued)
      requires Numbered(pending, q.sequence)
      ensures forall p :: p in pending ==> p.sequence < q.sequence
    {
    }

    lemma NumberedTail(pending: seq<Queued>, next: nat)
      requires Numbered(pending, next) && pending != []
      ensures Numbered(pending[1..], next)
    {
    }

    /** Pop the root, which is the oldest event held back. */
    method TakeOldest() returns (event: Event)
      requires Valid() && events.items != []
      modifies events, `pending
      ensures Valid()
      ensures old(View()).pending != [] && event == old(View()).pending[0]
      ensures View() == old(View()).(pending := old(View()).pending[1..])
    {
      hide Stands, Numbered;
      ghost var items := events.items;
      StandsIsHeap(items, pending);
      var item := events.HeapPop();
      PopStands(items, pending, events.items);
      NumberedTail(pending, nextSequence);
      assert EventsOf(pending)[1..] == EventsOf(pending[1..]);
      pending := pending[1..];
      return item.event;
    }

    lemma HeapMatchesView()
      requires Valid()
      ensures events.items == [] <==> View().pending == []
      ensures events.items != [] ==> events.items[0].event == View().pending[0]
    {
      RootIsHead(events.items, pending);
    }

    method EmitReady() returns (out: seq<Event>)
      requires Valid()
      modifies events, `pending
      ensures Valid() && Emission(View(), out) == Reordering.EmitReady(old(View()), allowedLateness)
    {
      hide Valid;
      ghost var all := View().pending;
      ghost var i: nat := 0;
      out := [];
      HeapMatchesView();
      while |events.items| > 0
        invariant Valid() && View() == old(View()).(pending := View().pending) && i <= |all|
        invariant out == all[..i] && View().pending == all[i..]
        invariant ReadyCount(all, Cutoff()) == i + ReadyCount(all[i..], Cutoff())
        decreases |all| - i
      {
        HeapMatchesView();
        var next := events.Peek();
        OneReady(all, Cutoff(), i);
        if next.event.timestamp > Cutoff() {
          return;
        }
        var event := TakeOldest();
        out := out + [event];
        i := i + 1;
      }
      HeapMatchesView();
    }

    method Flush() returns (out: seq<Event>)
      requires Valid()
      modifies events, `pending
      ensures Valid() && Emission(View(), out) == Reordering.Flush(old(View()))
    {
      hide Valid;
      ghost var all := View().pending;
      ghost var i: nat := 0;
      out := [];
      while |events.items| > 0
        invariant Valid() && View() == old(View()).(pending := View().pending) && i <= |all|
        invariant out == all[..i] && View().pending == all[i..]
        decreases |all| - i
      {
        HeapMatchesView();
        var event := TakeOldest();
        out := out + [event];
        i := i + 1;
      }
      HeapMatchesView();
    }

    method Process(event: Event) returns (out: seq<Event>)
      requires Valid()
      modifies this, events
      ensures Valid() && Emission(View(), out) == Reordering.Process(old(View()), allowedLateness, event)
    {
      Enqueue(event);
      if event.endOfRun {
        out := Flush();
      } else {
        out := EmitReady();
      }
    }

    /** The event loop: what arrives until the input is closed, idle timeouts in between. */
    method Run(inputs: seq<Input>) returns (out: seq<Event>)
      requires Valid() && View() == FRESH
      modifies this, events
      ensures Valid() && View().pending == []
      ensures out == Output(allowedLateness, inputs)
    {
      hide Valid, Receive;
      out := [];
      for k := 0 to |inputs|
        invariant Valid() && Emission(View(), out) == RunOn(allowedLateness, inputs[..k])
      {
        assert inputs[..k + 1][..k] == inputs[..k];
        ReceiveIs(View(), allowedLateness, inputs[k]);
        var sent;
        if inputs[k].Arrive? {
          sent := Process(inputs[k].event);
        } else {
          sent := Flush();
        }
        out := out + sent;
      }
      assert inputs[..|inputs|] == inputs;
      var sent := Flush();
      out := out + sent;
    }

    lemma ReceiveIs(b: Buffer, lateness: int, i: Input)
      ensures Receive(b, lateness, i)
           == if i.Arrive? then Reordering.Process(b, lateness, i.event) else Reordering.Flush(b)
    {
    }
  }
}
