/** When the processor's output is the stable sort of its input, said of the input alone. */
module ReorderTheorems {
  import opened MarketTypes
  import opened StableSort
  import opened Reordering

  /** The largest timestamp that has arrived, counting from 0. */
  function Newest(inputs: seq<Input>): int {
    if inputs == [] then 0
    else
      var before := Newest(inputs[..|inputs| - 1]);
      var i := inputs[|inputs| - 1];
      if i.Arrive? && before < i.event.timestamp then i.event.timestamp else before
  }

  /** An idle timeout or an end marker empties the buffer. */
  predicate Flushes(i: Input) {
    i.IdleTimeout? || i.event.endOfRun
  }

  /** The event that arrived at `j` is newer than the watermark has become since, and nothing has flushed the buffer. */
  predicate Held(lateness: int, inputs: seq<Input>, j: nat) {
    && j < |inputs| && inputs[j].Arrive?
    && (forall k :: j <= k < |inputs| ==> !Flushes(inputs[k]))
    && Newest(inputs) - lateness < inputs[j].event.timestamp
  }

  predicate Overtakes(inputs: seq<Input>, j: nat, i: nat) {
    && j < i < |inputs| && inputs[j].Arrive? && inputs[i].Arrive?
    && inputs[i].event.timestamp < inputs[j].event.timestamp
  }

  /** Whenever an event arrives after a newer one, the newer one is still held back. */
  predicate InTime(lateness: int, inputs: seq<Input>) {
    forall j: nat, i: nat :: j < i < |inputs| && Overtakes(inputs, j, i) ==> Held(lateness, inputs[..i], j)
  }

  // ----- what is out and what is held back, by timestamp -----

  function Times(es: seq<Event>): set<int> {
    set e | e in es :: e.timestamp
  }

  function TimeAt(inputs: seq<Input>, j: nat): int {
    if j < |inputs| && inputs[j].Arrive? then inputs[j].event.timestamp else 0
  }

  function HeldTimes(lateness: int, inputs: seq<Input>): set<int> {
    set j: nat | j < |inputs| && Held(lateness, inputs, j) :: TimeAt(inputs, j)
  }

  predicate Released(lateness: int, inputs: seq<Input>, j: nat) {
    j < |inputs| && inputs[j].Arrive? && !Held(lateness, inputs, j)
  }

  function ReleasedTimes(lateness: int, inputs: seq<Input>): set<int> {
    set j: nat | j < |inputs| && Released(lateness, inputs, j) :: TimeAt(inputs, j)
  }

  lemma NewestGrows(front: seq<Input>, i: Input)
    ensures Newest(front) <= Newest(front + [i])
    ensures Newest(front + [i]) == if i.Arrive? && Newest(front) < i.event.timestamp then i.event.timestamp else Newest(front)
  {
    assert (front + [i])[..|front|] == front;
  }

  /** How one more input changes what is held: a flush releases all, an arrival all that is behind the new watermark. */
  lemma HeldSnoc(lateness: int, front: seq<Input>, i: Input, j: nat)
    ensures j < |front| ==>
      (Held(lateness, front + [i], j) <==>
        Held(lateness, front, j) && !Flushes(i) && Newest(front + [i]) - lateness < TimeAt(front, j))
    ensures Held(lateness, front + [i], |front|) <==>
      i.Arrive? && !Flushes(i) && Newest(front + [i]) - lateness < i.event.timestamp
  {
    var all := front + [i];
    NewestGrows(front, i);
    if j < |front| {
      assert all[j] == front[j] && all[|front|] == i;
      if Held(lateness, all, j) {
        forall k | j <= k < |front| ensures !Flushes(front[k]) {
          assert all[k] == front[k];
        }
      }
    }
  }

  /** All timestamps an arrival adds to. */
  function Arriving(i: Input): set<int> {
    if i.Arrive? then {i.event.timestamp} else {}
  }

  function NewerThan(ts: set<int>, t: int): set<int> {
    set x | x in ts && t < x
  }

  lemma TimesSnoc(lateness: int, front: seq<Input>, i: Input)
    ensures var w := Newest(front + [i]) - lateness;
      var was := HeldTimes(lateness, front) + Arriving(i);
      HeldTimes(lateness, front + [i]) == if Flushes(i) then {} else NewerThan(was, w)
  {
    hide Held, Newest;
    var all := front + [i];
    var w := Newest(all) - lateness;
    var now := HeldTimes(lateness, all);
    var then' := if Flushes(i) then {} else NewerThan(HeldTimes(lateness, front) + Arriving(i), w);
    HeldSnoc(lateness, front, i, |front|);
    forall t | t in now ensures t in then' {
      var j: nat :| j < |all| && Held(lateness, all, j) && TimeAt(all, j) == t;
      HeldSnoc(lateness, front, i, j);
    }
    forall t | t in then' ensures t in now {
      if t in HeldTimes(lateness, front) {
        var j: nat :| j < |front| && Held(lateness, front, j) && TimeAt(front, j) == t;
        HeldSnoc(lateness, front, i, j);
        assert Held(lateness, all, j) && TimeAt(all, j) == t;
      } else {
        assert Held(lateness, all, |front|) && TimeAt(all, |front|) == t;
      }
    }
  }

  lemma ReleasedSnoc(lateness: int, front: seq<Input>, i: Input)
    ensures var w := Newest(front + [i]) - lateness;
      var was := HeldTimes(lateness, front) + Arriving(i);
      ReleasedTimes(lateness, front + [i]) == ReleasedTimes(lateness, front) + (if Flushes(i) then was else was - NewerThan(was, w))
  {
    hide Held, Newest;
    var all := front + [i];
    var w := Newest(all) - lateness;
    var was := HeldTimes(lateness, front) + Arriving(i);
    var now := ReleasedTimes(lateness, all);
    var then' := ReleasedTimes(lateness, front) + (if Flushes(i) then was else was - NewerThan(was, w));
    HeldSnoc(lateness, front, i, |front|);
    forall t | t in now ensures t in then' {
      var j: nat :| j < |all| && Released(lateness, all, j) && TimeAt(all, j) == t;
      HeldSnoc(lateness, front, i, j);
      if j < |front| {
        assert TimeAt(front, j) == t;
        assert Held(lateness, front, j) || Released(lateness, front, j);
      }
    }
    forall t | t in then' ensures t in now {
      if t in ReleasedTimes(lateness, front) {
        var j: nat :| j < |front| && Released(lateness, front, j) && TimeAt(front, j) == t;
        HeldSnoc(lateness, front, i, j);
        assert Released(lateness, all, j) && TimeAt(all, j) == t;
      } else if t in HeldTimes(lateness, front) {
        var j: nat :| j < |front| && Held(lateness, front, j) && TimeAt(front, j) == t;
        HeldIsArrival(lateness, front, j);
        HeldSnoc(lateness, front, i, j);
        assert Released(lateness, all, j) && TimeAt(all, j) == t;
      } else {
        assert Released(lateness, all, |front|) && TimeAt(all, |front|) == t;
      }
    }
  }

  lemma HeldIsArrival(lateness: int, inputs: seq<Input>, j: nat)
    requires Held(lateness, inputs, j)
    ensures j < |inputs| && inputs[j].Arrive?
  {
  }

  // ----- the buffer holds what is held -----

  lemma TimesOfConcat(a: seq<Event>, b: seq<Event>)
    ensures Times(a + b) == Times(a) + Times(b)
  {
    assert forall e :: e in a + b <==> e in a || e in b;
  }

  lemma TimesOfInsert(pending: seq<Event>, e: Event)
    ensures Times(InsertByKey(pending, Stamp, e)) == Times(pending) + {e.timestamp}
  {
    hide InsertByKey;
    InsertFacts(pending, Stamp, e);
  }

  /** Cutting a sorted buffer at the watermark separates the timestamps up to it from those beyond. */
  lemma {:induction false} CutAtWatermark(pending: seq<Event>, w: int)
    requires SortedByKey(pending, Stamp)
    ensures var n := ReadyCount(pending, w);
      && Times(pending[n..]) == NewerThan(Times(pending), w)
      && Times(pending[..n]) == Times(pending) - NewerThan(Times(pending), w)
  {
    if pending == [] {
    } else if w < pending[0].timestamp {
      forall e | e in pending ensures w < e.timestamp {
        var i :| 0 <= i < |pending| && pending[i] == e;
        SortedPairs(pending, Stamp, 0, i);
      }
      assert pending[0..] == pending;
    } else {
      var n := ReadyCount(pending[1..], w);
      CutAtWatermark(pending[1..], w);
      assert pending[..n + 1] == [pending[0]] + pending[1..][..n];
      assert pending[n + 1..] == pending[1..][n..];
      assert pending == [pending[0]] + pending[1..];
      TimesOfConcat([pending[0]], pending[1..]);
      TimesOfConcat([pending[0]], pending[1..][..n]);
      assert Times([pending[0]]) == {pending[0].timestamp};
    }
  }

  lemma {:induction false} MaxIsNewest(lateness: int, inputs: seq<Input>)
    ensures RunOn(lateness, inputs).buffer.maxSeen == Newest(inputs)
  {
    hide InsertByKey;
    if inputs != [] {
      MaxIsNewest(lateness, inputs[..|inputs| - 1]);
    }
  }

  /** At any point of any run the buffer holds, by timestamp, what is held, and everything else is out. */
  lemma {:induction false} BufferIsHeld(lateness: int, inputs: seq<Input>)
    ensures var r := RunOn(lateness, inputs);
      Times(r.buffer.pending) == HeldTimes(lateness, inputs) && Times(r.out) == ReleasedTimes(lateness, inputs)
  {
    hide InsertByKey, Held, Newest, Times, NewerThan, HeldTimes, ReleasedTimes;
    if inputs == [] {
      NothingHeld(lateness);
    } else {
      var front, i := inputs[..|inputs| - 1], inputs[|inputs| - 1];
      assert front + [i] == inputs;
      var r := RunOn(lateness, front);
      BufferIsHeld(lateness, front);
      TimesSnoc(lateness, front, i);
      ReleasedSnoc(lateness, front, i);
      NoTimes();
      if i.Arrive? {
        var b := Enqueued(r.buffer, i.event);
        TimesOfInsert(r.buffer.pending, i.event);
        MaxIsNewest(lateness, front);
        NewestGrows(front, i);
        PendingIsSorted(lateness, front);
        InsertSorted(r.buffer.pending, Stamp, i.event);
        CutAtWatermark(b.pending, b.maxSeen - lateness);
        TimesOfConcat(r.out, b.pending);
        TimesOfConcat(r.out, b.pending[..ReadyCount(b.pending, b.maxSeen - lateness)]);
      } else {
        TimesOfConcat(r.out, r.buffer.pending);
      }
    }
  }

  lemma NothingHeld(lateness: int)
    ensures HeldTimes(lateness, []) == {} && ReleasedTimes(lateness, []) == {} && Times([]) == {}
  {
  }

  lemma NoTimes()
    ensures Times([]) == {}
  {
  }

  // ----- the condition on the output is the condition on the input -----

  lemma UpToByTimes(es: seq<Event>, t: int)
    ensures AllUpTo(es, t) <==> forall x :: x in Times(es) ==> x <= t
  {
    forall i | 0 <= i < |es| ensures es[i].timestamp in Times(es) {
      assert es[i] in es;
    }
  }

  /** Nothing out is newer than `t` exactly when every newer arrival is still held. */
  lemma OutIsOld(lateness: int, inputs: seq<Input>, t: int)
    ensures AllUpTo(RunOn(lateness, inputs).out, t)
      <==> forall j: nat :: j < |inputs| && inputs[j].Arrive? && t < TimeAt(inputs, j) ==> Held(lateness, inputs, j)
  {
    hide RunOn, Held;
    var out := RunOn(lateness, inputs).out;
    BufferIsHeld(lateness, inputs);
    UpToByTimes(out, t);
    if forall x :: x in Times(out) ==> x <= t {
      forall j: nat | j < |inputs| && inputs[j].Arrive? && t < TimeAt(inputs, j) ensures Held(lateness, inputs, j) {
        assert Released(lateness, inputs, j) ==> TimeAt(inputs, j) in ReleasedTimes(lateness, inputs);
      }
    } else {
      var x :| x in Times(out) && t < x;
      var j: nat :| j < |inputs| && Released(lateness, inputs, j) && TimeAt(inputs, j) == x;
    }
  }

  lemma InTimeSnoc(lateness: int, front: seq<Input>, i: Input)
    ensures InTime(lateness, front + [i]) <==>
      InTime(lateness, front) && forall j: nat :: j < |front| && Overtakes(front + [i], j, |front|) ==> Held(lateness, front, j)
  {
    hide Held;
    var all := front + [i];
    assert all[..|front|] == front;
    forall k: nat | k < |front| ensures all[..k] == front[..k] {
    }
    forall j: nat, k: nat | j < k < |front| ensures Overtakes(all, j, k) == Overtakes(front, j, k) {
    }
    if InTime(lateness, all) {
      forall j: nat, k: nat | j < k < |front| && Overtakes(front, j, k) ensures Held(lateness, front[..k], j) {
        assert Overtakes(all, j, k);
      }
    }
  }

  lemma {:induction false} InTimeIsNeverLate(lateness: int, inputs: seq<Input>)
    ensures NeverLate(lateness, inputs) <==> InTime(lateness, inputs)
  {
    hide Held, RunOn, InTime, AllUpTo;
    if inputs == [] {
      NothingIsInTime(lateness);
    } else {
      var front, i := inputs[..|inputs| - 1], inputs[|inputs| - 1];
      assert front + [i] == inputs;
      InTimeIsNeverLate(lateness, front);
      InTimeSnoc(lateness, front, i);
      if i.Arrive? {
        OutIsOld(lateness, front, i.event.timestamp);
      }
    }
  }

  lemma NothingIsInTime(lateness: int)
    ensures InTime(lateness, [])
  {
  }

  /**
   The output is the stable sort of the input by timestamp exactly when, whenever an event arrives after a newer one,
   the newer one is still held: no idle timeout and no end marker came since it arrived, and it is newer than the
   watermark has become.
   */
  lemma ReorderIsStableSort(lateness: int, inputs: seq<Input>)
    ensures Output(lateness, inputs) == SortByKey(Arrivals(inputs), Stamp) <==> InTime(lateness, inputs)
  {
    hide SortByKey, Output, Arrivals, WithKey, SortedByKey, InTime;
    InTimeIsNeverLate(lateness, inputs);
    SortedUnlessLate(lateness, inputs);
    SortIsSorted(Arrivals(inputs), Stamp);
    if NeverLate(lateness, inputs) {
      forall t ensures WithKey(Output(lateness, inputs), Stamp, t) == WithKey(SortByKey(Arrivals(inputs), Stamp), Stamp, t) {
        FifoWithinTimestamp(lateness, inputs, t);
        SortIsStable(Arrivals(inputs), Stamp, t);
      }
      StableSortIsUnique(Output(lateness, inputs), SortByKey(Arrivals(inputs), Stamp), Stamp);
    }
  }

  /** Every event is at most `lateness` older than the newest before it, and nothing forces a flush before the last input. */
  predicate WithinLateness(lateness: int, inputs: seq<Input>) {
    && (forall i: nat :: i < |inputs| && inputs[i].Arrive? ==> Newest(inputs[..i]) - lateness <= inputs[i].event.timestamp)
    && (forall k :: 0 <= k < |inputs| - 1 ==> !Flushes(inputs[k]))
  }

  /** The contract the lateness window is for: bounded disorder and no forced flush make the output sorted. */
  lemma LatenessWindowSorts(lateness: int, inputs: seq<Input>)
    requires WithinLateness(lateness, inputs)
    ensures Output(lateness, inputs) == SortByKey(Arrivals(inputs), Stamp)
  {
    hide Output, SortByKey, Newest;
    forall j: nat, i: nat | j < i < |inputs| && Overtakes(inputs, j, i) ensures Held(lateness, inputs[..i], j) {
      assert Newest(inputs[..i]) - lateness <= inputs[i].event.timestamp;
    }
    ReorderIsStableSort(lateness, inputs);
  }
}
