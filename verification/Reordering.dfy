/** What the watermark processor does to a stream: each arrival is buffered, and whatever is old enough is released. */
module Reordering {
  import opened MarketTypes
  import opened StableSort

  function Stamp(e: Event): int {
    e.timestamp
  }

  /** The largest timestamp so far and what is held back, oldest first and first come first among equals. */
  datatype Buffer = Buffer(maxSeen: int, pending: seq<Event>)

  const FRESH := Buffer(0, [])

  /** A step's outcome: the buffer it leaves and what it sends on. */
  datatype Emission = Emission(buffer: Buffer, out: seq<Event>)

  function Enqueued(b: Buffer, e: Event): Buffer {
    Buffer(if b.maxSeen < e.timestamp then e.timestamp else b.maxSeen, InsertByKey(b.pending, Stamp, e))
  }

  function ReadyCount(pending: seq<Event>, watermark: int): (n: nat)
    ensures n <= |pending|
  {
    if pending == [] || watermark < pending[0].timestamp then 0 else 1 + ReadyCount(pending[1..], watermark)
  }

  function EmitReady(b: Buffer, lateness: int): Emission {
    var n := ReadyCount(b.pending, b.maxSeen - lateness);
    Emission(b.(pending := b.pending[n..]), b.pending[..n])
  }

  function Flush(b: Buffer): Emission {
    Emission(b.(pending := []), b.pending)
  }

  function Process(b: Buffer, lateness: int, e: Event): Emission {
    if e.endOfRun then Flush(Enqueued(b, e)) else EmitReady(Enqueued(b, e), lateness)
  }

  /** What can happen to a running processor: an event arrives, or none does for the idle timeout. */
  datatype Input = Arrive(event: Event) | IdleTimeout

  function Receive(b: Buffer, lateness: int, i: Input): Emission {
    match i
    case Arrive(e) => Process(b, lateness, e)
    case IdleTimeout => Flush(b)
  }

  function RunOn(lateness: int, inputs: seq<Input>): Emission {
    if inputs == [] then Emission(FRESH, [])
    else
      var before := RunOn(lateness, inputs[..|inputs| - 1]);
      var now := Receive(before.buffer, lateness, inputs[|inputs| - 1]);
      Emission(now.buffer, before.out + now.out)
  }

  /** All the processor sends if its input is closed after `inputs`. */
  function Output(lateness: int, inputs: seq<Input>): seq<Event> {
    var r := RunOn(lateness, inputs);
    r.out + Flush(r.buffer).out
  }

  function Arrivals(inputs: seq<Input>): seq<Event> {
    if inputs == [] then []
    else
      var i := inputs[|inputs| - 1];
      Arrivals(inputs[..|inputs| - 1]) + (if i.Arrive? then [i.event] else [])
  }

  // ----- one step -----

  /** Releasing only moves the boundary between what is out and what is pending. */
  lemma ReceiveMovesBoundary(b: Buffer, lateness: int, i: Input)
    ensures var now := Receive(b, lateness, i);
      now.out + now.buffer.pending == if i.Arrive? then InsertByKey(b.pending, Stamp, i.event) else b.pending
  {
    hide InsertByKey, ReadyCount;
    CutAndJoin(b.pending, |b.pending|);
    if i.Arrive? {
      var e := Enqueued(b, i.event);
      CutAndJoin(e.pending, |e.pending|);
      CutAndJoin(e.pending, ReadyCount(e.pending, e.maxSeen - lateness));
    }
  }

  lemma CutAndJoin(xs: seq<Event>, n: nat)
    requires n <= |xs|
    ensures xs[..n] + xs[n..] == xs && xs + [] == xs
  {
  }

  lemma OutputStep(lateness: int, inputs: seq<Input>)
    requires inputs != []
    ensures var before := RunOn(lateness, inputs[..|inputs| - 1]);
      var i := inputs[|inputs| - 1];
      Output(lateness, inputs)
        == before.out + (if i.Arrive? then InsertByKey(before.buffer.pending, Stamp, i.event) else before.buffer.pending)
  {
    hide InsertByKey, Receive;
    var before := RunOn(lateness, inputs[..|inputs| - 1]);
    var i := inputs[|inputs| - 1];
    ReceiveMovesBoundary(before.buffer, lateness, i);
    var now := Receive(before.buffer, lateness, i);
    assert before.out + now.out + now.buffer.pending == before.out + (now.out + now.buffer.pending);
  }

  lemma {:induction false} SortedSuffix(xs: seq<Event>, n: nat)
    requires SortedByKey(xs, Stamp) && n <= |xs|
    ensures SortedByKey(xs[n..], Stamp)
  {
    if 0 < n {
      SortedSuffix(xs[1..], n - 1);
      assert xs[1..][n - 1..] == xs[n..];
    }
  }

  /** What is held back is always sorted. */
  lemma {:induction false} PendingIsSorted(lateness: int, inputs: seq<Input>)
    ensures SortedByKey(RunOn(lateness, inputs).buffer.pending, Stamp)
  {
    hide InsertByKey;
    if inputs != [] {
      var b := RunOn(lateness, inputs[..|inputs| - 1]).buffer;
      var i := inputs[|inputs| - 1];
      PendingIsSorted(lateness, inputs[..|inputs| - 1]);
      if i.Arrive? {
        InsertSorted(b.pending, Stamp, i.event);
        var e := Enqueued(b, i.event);
        SortedSuffix(e.pending, ReadyCount(e.pending, e.maxSeen - lateness));
      }
    }
  }

  // ----- every run: nothing lost, nothing repeated, first come first served within a timestamp -----

  lemma {:induction false} EachEventOnce(lateness: int, inputs: seq<Input>)
    ensures multiset(Output(lateness, inputs)) == multiset(Arrivals(inputs))
  {
    hide InsertByKey, Receive;
    if inputs != [] {
      var i := inputs[|inputs| - 1];
      EachEventOnce(lateness, inputs[..|inputs| - 1]);
      OutputStep(lateness, inputs);
      if i.Arrive? {
        InsertFacts(RunOn(lateness, inputs[..|inputs| - 1]).buffer.pending, Stamp, i.event);
      }
    }
  }

  lemma {:induction false} FifoWithinTimestamp(lateness: int, inputs: seq<Input>, t: int)
    ensures WithKey(Output(lateness, inputs), Stamp, t) == WithKey(Arrivals(inputs), Stamp, t)
  {
    hide InsertByKey, Receive, WithKey;
    if inputs == [] {
      NothingWithKey(t);
    } else {
      var front, i := inputs[..|inputs| - 1], inputs[|inputs| - 1];
      var before := RunOn(lateness, front);
      FifoWithinTimestamp(lateness, front, t);
      OutputStep(lateness, inputs);
      WithKeyConcat(before.out, before.buffer.pending, Stamp, t);
      if i.Arrive? {
        PendingIsSorted(lateness, front);
        InsertStable(before.buffer.pending, Stamp, i.event, t);
        WithKeyConcat(before.out, InsertByKey(before.buffer.pending, Stamp, i.event), Stamp, t);
        WithKeySnoc(Arrivals(front), i.event, Stamp, t);
      } else {
        assert Arrivals(front) + [] == Arrivals(front);
      }
    }
  }

  lemma NothingWithKey(t: int)
    ensures WithKey([], Stamp, t) == []
  {
  }

  // ----- when the output is the stable sort of the input -----

  predicate AllUpTo(xs: seq<Event>, t: int) {
    forall i :: 0 <= i < |xs| ==> xs[i].timestamp <= t
  }

  /** No event arrived older than one already released. */
  predicate NeverLate(lateness: int, inputs: seq<Input>) {
    inputs == [] || (
      && NeverLate(lateness, inputs[..|inputs| - 1])
      && var i := inputs[|inputs| - 1];
         i.Arrive? ==> AllUpTo(RunOn(lateness, inputs[..|inputs| - 1]).out, i.event.timestamp))
  }

  lemma SortedCons(x: Event, xs: seq<Event>)
    ensures SortedByKey([x] + xs, Stamp) <==> SortedByKey(xs, Stamp) && (forall i :: 0 <= i < |xs| ==> x.timestamp <= xs[i].timestamp)
  {
    assert ([x] + xs)[1..] == xs;
    if SortedByKey(xs, Stamp) {
      forall i | 0 <= i < |xs| ensures xs[0].timestamp <= xs[i].timestamp {
        SortedPairs(xs, Stamp, 0, i);
      }
    }
  }

  lemma MembersByIndex(a: seq<Event>, b: seq<Event>, x: Event, e: Event)
    requires forall y :: y in b <==> y in a || y == e
    ensures (forall i :: 0 <= i < |b| ==> x.timestamp <= b[i].timestamp)
      <==> (forall i :: 0 <= i < |a| ==> x.timestamp <= a[i].timestamp) && x.timestamp <= e.timestamp
  {
    if forall i :: 0 <= i < |b| ==> x.timestamp <= b[i].timestamp {
      assert e in b && forall y :: y in b ==> x.timestamp <= y.timestamp;
      forall i | 0 <= i < |a| ensures x.timestamp <= a[i].timestamp {
        assert a[i] in b;
      }
    } else {
      var i :| 0 <= i < |b| && x.timestamp > b[i].timestamp;
      assert b[i] in a || b[i] == e;
    }
  }

  /** Inserting behind what is out keeps the whole sorted exactly when nothing out is newer. */
  lemma {:induction false} InsertBehindOut(out: seq<Event>, pending: seq<Event>, e: Event)
    requires SortedByKey(pending, Stamp)
    ensures SortedByKey(out + InsertByKey(pending, Stamp, e), Stamp)
      <==> SortedByKey(out + pending, Stamp) && AllUpTo(out, e.timestamp)
  {
    hide SortedByKey, InsertByKey;
    var inserted := InsertByKey(pending, Stamp, e);
    if out == [] {
      InsertSorted(pending, Stamp, e);
      assert [] + inserted == inserted && [] + pending == pending;
    } else {
      var x, rest := out[0], out[1..];
      InsertBehindOut(rest, pending, e);
      SortedCons(x, rest + inserted);
      SortedCons(x, rest + pending);
      assert out + inserted == [x] + (rest + inserted) && out + pending == [x] + (rest + pending);
      InsertFacts(pending, Stamp, e);
      MembersByIndex(rest + pending, rest + inserted, x, e);
      assert out == [x] + rest;
      AllUpToCons(x, rest, e.timestamp);
    }
  }

  lemma AllUpToCons(x: Event, xs: seq<Event>, t: int)
    ensures AllUpTo([x] + xs, t) <==> x.timestamp <= t && AllUpTo(xs, t)
  {
    if AllUpTo([x] + xs, t) {
      assert ([x] + xs)[0].timestamp <= t;
      forall i | 0 <= i < |xs| ensures xs[i].timestamp <= t {
        assert ([x] + xs)[i + 1] == xs[i];
      }
    }
  }

  lemma {:induction false} SortedUnlessLate(lateness: int, inputs: seq<Input>)
    ensures SortedByKey(Output(lateness, inputs), Stamp) <==> NeverLate(lateness, inputs)
  {
    hide SortedByKey, InsertByKey, Receive, AllUpTo;
    if inputs == [] {
      NothingIsSorted();
      assert Output(lateness, inputs) == [];
    } else {
      var front, i := inputs[..|inputs| - 1], inputs[|inputs| - 1];
      SortedUnlessLate(lateness, front);
      OutputStep(lateness, inputs);
      if i.Arrive? {
        var before := RunOn(lateness, front);
        PendingIsSorted(lateness, front);
        InsertBehindOut(before.out, before.buffer.pending, i.event);
      }
    }
  }

  lemma NothingIsSorted()
    ensures SortedByKey<Event>([], Stamp)
  {
  }

  /** An end marker empties the buffer, so a run that ends in one needs no close to deliver everything. */
  lemma EndDelivers(lateness: int, inputs: seq<Input>)
    requires inputs != [] && inputs[|inputs| - 1].Arrive? && inputs[|inputs| - 1].event.endOfRun
    ensures RunOn(lateness, inputs).out == Output(lateness, inputs)
  {
    hide InsertByKey;
    var r := RunOn(lateness, inputs);
    assert r.out + [] == r.out;
  }
}
