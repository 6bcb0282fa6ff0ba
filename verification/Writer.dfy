/**
 The serialized correctness writer: it reserves a sequence number per attempt before sending, records exactly one
 intent per attempt whatever came back, one record per reported trade, and an end-of-run marker last.
 */
module Writer {
  import opened MarketTypes

  datatype Request =
    | NewOrder(orderId: string, side: Side, otype: OrderType, ticker: string, price: int, quantity: int)
    | CancelRequest(targetId: nat, targetText: string)

  datatype ParsedTrade = ParsedTrade(buyOrderId: nat, sellOrderId: nat, price: int, qty: int, at: int)

  /** How one HTTP exchange ended; `orderId` is 0 when the body carried no usable id. */
  datatype Response =
    | WriteFailed
    | HeaderLost
    | TimedOut
    | BodyLost
    | Answered(status: int, parsed: bool, orderId: nat, trades: seq<ParsedTrade>)

  datatype Attempt = Attempt(request: Request, response: Response, at: int)

  // ----- what the log of a run is -----

  function OutcomeOf(r: Response): Outcome {
    match r
    case Answered(status, parsed, orderId, _) =>
      if status == 200 then (if parsed && orderId != 0 then Ok else Unknown)
      else if 400 <= status < 500 then Rejected
      else Unknown
    case _ => Unknown
  }

  function ServerIdOf(r: Response): nat {
    if OutcomeOf(r).Ok? then r.orderId else 0
  }

  function TradesOf(r: Response): seq<ParsedTrade> {
    if OutcomeOf(r).Ok? then r.trades else []
  }

  function IntentEvent(submission: string, a: Attempt, outcome: Outcome, serverId: nat, seqNo: nat): Event {
    match a.request
    case NewOrder(id, side, otype, ticker, price, quantity) =>
      Event(submission, a.at, id, Intent(side), price, quantity, ticker, otype, seqNo, serverId, 0, 0, 0, "", false, outcome)
    case CancelRequest(target, text) =>
      Event(submission, a.at, text, Cancel, 0, 0, "", OtherType, seqNo, serverId, 0, target, 0, "", false, outcome)
  }

  function RequestId(r: Request): string {
    match r
    case NewOrder(id, _, _, _, _, _) => id
    case CancelRequest(_, text) => text
  }

  function RequestTicker(r: Request): string {
    match r
    case NewOrder(_, _, _, ticker, _, _) => ticker
    case CancelRequest(_, _) => ""
  }

  /** The resting side of a reported trade: whichever party is not the order just sent. */
  function MatchedId(t: ParsedTrade, serverId: nat): nat {
    if t.buyOrderId == serverId then t.sellOrderId else t.buyOrderId
  }

  function FillEvent(submission: string, a: Attempt, serverId: nat, t: ParsedTrade, seqNo: nat): Event {
    Event(submission, t.at, "", Fill, 0, t.qty, RequestTicker(a.request), OtherType, seqNo, serverId,
          MatchedId(t, serverId), 0, t.price, RequestId(a.request), false, Ok)
  }

  function FillEvents(submission: string, a: Attempt, serverId: nat, ts: seq<ParsedTrade>, seqNo: nat): seq<Event> {
    if ts == [] then []
    else
      var n := |ts| - 1;
      FillEvents(submission, a, serverId, ts[..n], seqNo) + [FillEvent(submission, a, serverId, ts[n], seqNo + n)]
  }

  function EndEvent(submission: string, at: int, seqNo: nat): Event {
    Event(submission, at, "", OtherAction, 0, 0, "", OtherType, seqNo, 0, 0, 0, 0, "", true, Ok)
  }

  /** The records of one attempt whose reserved number is `seqNo`: the intent, then its fills. */
  function AttemptLog(submission: string, a: Attempt, seqNo: nat): seq<Event> {
    [IntentEvent(submission, a, OutcomeOf(a.response), ServerIdOf(a.response), seqNo)]
    + FillEvents(submission, a, ServerIdOf(a.response), TradesOf(a.response), seqNo + 1)
  }

  /** The records of a run in sequence order. */
  function RunLog(submission: string, attempts: seq<Attempt>): seq<Event> {
    if attempts == [] then []
    else
      var before := RunLog(submission, attempts[..|attempts| - 1]);
      before + AttemptLog(submission, attempts[|attempts| - 1], |before| + 1)
  }

  /** The whole stream: the run and its end-of-run marker. */
  function Stream(submission: string, attempts: seq<Attempt>, endAt: int): seq<Event> {
    var log := RunLog(submission, attempts);
    log + [EndEvent(submission, endAt, |log| + 1)]
  }

  /** Sequence numbers are exactly start, start+1, ... in order. */
  predicate Numbered(es: seq<Event>, start: nat) {
    forall i :: 0 <= i < |es| ==> es[i].seqNo == start + i
  }

  lemma {:induction false} FillsNumbered(submission: string, a: Attempt, serverId: nat, ts: seq<ParsedTrade>,
                        seqNo: nat)
    ensures var fs := FillEvents(submission, a, serverId, ts, seqNo);
      && |fs| == |ts| && Numbered(fs, seqNo)
      && (forall i :: 0 <= i < |ts| ==> fs[i] == FillEvent(submission, a, serverId, ts[i], seqNo + i))
  {
    if ts != [] {
      FillsNumbered(submission, a, serverId, ts[..|ts| - 1], seqNo);
    }
  }

  lemma AttemptNumbered(submission: string, a: Attempt, seqNo: nat)
    ensures Numbered(AttemptLog(submission, a, seqNo), seqNo)
    ensures |AttemptLog(submission, a, seqNo)| == 1 + |TradesOf(a.response)|
  {
    FillsNumbered(submission, a, ServerIdOf(a.response), TradesOf(a.response), seqNo + 1);
  }

  /** Every number from 1 to the length of the log is used exactly once, in order. */
  lemma {:induction false} RunNumbered(submission: string, attempts: seq<Attempt>)
    ensures Numbered(RunLog(submission, attempts), 1)
  {
    if attempts != [] {
      var front := attempts[..|attempts| - 1];
      RunNumbered(submission, front);
      AttemptNumbered(submission, attempts[|attempts| - 1], |RunLog(submission, front)| + 1);
    }
  }

  lemma StreamNumbered(submission: string, attempts: seq<Attempt>, endAt: int)
    ensures Numbered(Stream(submission, attempts, endAt), 1)
  {
    RunNumbered(submission, attempts);
  }

  /** The records of a run that was stopped while an attempt was under way: its reserved number stays unused. */
  function CutStream(submission: string, attempts: seq<Attempt>, endAt: int): seq<Event> {
    var log := RunLog(submission, attempts);
    log + [EndEvent(submission, endAt, |log| + 2)]
  }

  lemma {:induction false} LogHasNoEnd(submission: string, attempts: seq<Attempt>)
    ensures forall e :: e in RunLog(submission, attempts) ==> !e.endOfRun
  {
    if attempts != [] {
      var front, a := attempts[..|attempts| - 1], attempts[|attempts| - 1];
      var n := |RunLog(submission, front)|;
      LogHasNoEnd(submission, front);
      AttemptHasNoEnd(submission, a, n + 1);
    }
  }

  lemma AttemptHasNoEnd(submission: string, a: Attempt, n: nat)
    ensures forall e :: e in AttemptLog(submission, a, n) ==> !e.endOfRun
  {
    FillsNumbered(submission, a, ServerIdOf(a.response), TradesOf(a.response), n + 1);
  }

  lemma {:induction false} LogIsOwn(submission: string, attempts: seq<Attempt>)
    ensures forall e :: e in RunLog(submission, attempts) ==> e.submission == submission
  {
    if attempts != [] {
      var front, a := attempts[..|attempts| - 1], attempts[|attempts| - 1];
      var n := |RunLog(submission, front)|;
      LogIsOwn(submission, front);
      FillsNumbered(submission, a, ServerIdOf(a.response), TradesOf(a.response), n + 2);
    }
  }

  /** Every record of a run is stamped with its submission. */
  lemma StreamIsOwn(submission: string, attempts: seq<Attempt>, endAt: int)
    ensures forall e :: e in Stream(submission, attempts, endAt) ==> e.submission == submission
  {
    LogIsOwn(submission, attempts);
  }

  // ----- the two audit vectors -----

  function Fills(es: seq<Event>): seq<Event> {
    if es == [] then []
    else Fills(es[..|es| - 1]) + (if es[|es| - 1].action.Fill? then [es[|es| - 1]] else [])
  }

  function Intents(es: seq<Event>): seq<Event> {
    if es == [] then []
    else Intents(es[..|es| - 1]) + (if es[|es| - 1].action.Fill? then [] else [es[|es| - 1]])
  }

  lemma {:induction false} SplitConcat(a: seq<Event>, b: seq<Event>)
    ensures Fills(a + b) == Fills(a) + Fills(b) && Intents(a + b) == Intents(a) + Intents(b)
  {
    if b == [] {
      assert a + b == a;
    } else {
      assert (a + b)[..|a + b| - 1] == a + b[..|b| - 1];
      SplitConcat(a, b[..|b| - 1]);
    }
  }

  lemma AttemptShape(submission: string, a: Attempt, seqNo: nat)
    ensures AttemptLog(submission, a, seqNo)
         == [IntentEvent(submission, a, OutcomeOf(a.response), ServerIdOf(a.response), seqNo)]
            + (if OutcomeOf(a.response).Ok? then FillEvents(submission, a, a.response.orderId, a.response.trades, seqNo + 1) else [])
  {
    hide FillEvent, IntentEvent;
  }

  /**
   What is recorded of an answer: rejected for a status of 400 to 499, ok for a 200 with a usable id, unknown for anything
   else, an answer that was lost or came too late among them; fills only behind an ok.
   */
  lemma OutcomeRecorded(submission: string, a: Attempt, seqNo: nat)
    ensures var log := AttemptLog(submission, a, seqNo);
      var (intent, r) := (log[0], a.response);
      && (intent.outcome.Rejected? <==> r.Answered? && 400 <= r.status <= 499)
      && (intent.outcome.Ok? <==> r.Answered? && r.status == 200 && r.parsed && r.orderId != 0)
      && intent.contestantOrderId == (if intent.outcome.Ok? then r.orderId else 0)
      && intent.orderId == (if a.request.NewOrder? then a.request.orderId else a.request.targetText)
      && (a.request.CancelRequest? ==> intent.action.Cancel? && intent.cancelTargetId == a.request.targetId)
      && |log| == 1 + (if intent.outcome.Ok? then |r.trades| else 0)
      && (forall i :: 0 <= i < |log| ==>
            log[i].submission == submission && log[i].timestamp == (if i == 0 then a.at else r.trades[i - 1].at)
            && (a.request.NewOrder? ==> log[i].ticker == a.request.ticker))
  {
    FillsNumbered(submission, a, ServerIdOf(a.response), TradesOf(a.response), seqNo + 1);
  }

  lemma IntentIsOrder(submission: string, a: Attempt, outcome: Outcome, serverId: nat, seqNo: nat)
    ensures !IntentEvent(submission, a, outcome, serverId, seqNo).action.Fill?
  {
  }

  lemma SplitOne(e: Event)
    ensures Fills([e]) == (if e.action.Fill? then [e] else []) && Intents([e]) == (if e.action.Fill? then [] else [e])
  {
    assert [e][..0] == [];
  }

  lemma {:induction false} SplitFills(submission: string, a: Attempt, serverId: nat, ts: seq<ParsedTrade>, seqNo: nat)
    ensures var fs := FillEvents(submission, a, serverId, ts, seqNo); Fills(fs) == fs && Intents(fs) == []
  {
    if ts != [] {
      SplitFills(submission, a, serverId, ts[..|ts| - 1], seqNo);
    }
  }

  /** Each attempt contributes one intent and one record per reported trade, nothing else. */
  lemma SplitAttempt(submission: string, a: Attempt, seqNo: nat)
    ensures var log := AttemptLog(submission, a, seqNo);
      && Intents(log) == [IntentEvent(submission, a, OutcomeOf(a.response), ServerIdOf(a.response), seqNo)]
      && Fills(log) == FillEvents(submission, a, ServerIdOf(a.response), TradesOf(a.response), seqNo + 1)
  {
    var i := IntentEvent(submission, a, OutcomeOf(a.response), ServerIdOf(a.response), seqNo);
    SplitOne(i);
    SplitFills(submission, a, ServerIdOf(a.response), TradesOf(a.response), seqNo + 1);
    SplitConcat([i], FillEvents(submission, a, ServerIdOf(a.response), TradesOf(a.response), seqNo + 1));
  }

  lemma {:induction false} OneIntentPerAttempt(submission: string, attempts: seq<Attempt>)
    ensures |Intents(RunLog(submission, attempts))| == |attempts|
  {
    hide AttemptLog, IntentEvent, FillEvents, Fills;
    if attempts != [] {
      var before := RunLog(submission, attempts[..|attempts| - 1]);
      OneIntentPerAttempt(submission, attempts[..|attempts| - 1]);
      SplitAttempt(submission, attempts[|attempts| - 1], |before| + 1);
      SplitConcat(before, AttemptLog(submission, attempts[|attempts| - 1], |before| + 1));
    }
  }

  lemma {:induction false} SplitKeepsAll(es: seq<Event>)
    ensures multiset(Intents(es)) + multiset(Fills(es)) == multiset(es)
  {
    if es == [] {
      NothingSplit();
    } else {
      hide Intents, Fills;
      var front, e := es[..|es| - 1], es[|es| - 1];
      SplitKeepsAll(front);
      SplitSnoc(front, e);
      assert es == front + [e];
      SnocKeepsAll(front, e, Intents(front), Fills(front));
    }
  }

  lemma SnocKeepsAll(es: seq<Event>, e: Event, a: seq<Event>, b: seq<Event>)
    requires multiset(a) + multiset(b) == multiset(es)
    ensures multiset(a + [e]) + multiset(b) == multiset(es + [e])
    ensures multiset(a) + multiset(b + [e]) == multiset(es + [e])
    ensures a + [] == a && b + [] == b
  {
  }

  /** Both vectors together hold the records they were filled with, whatever their order. */
  lemma VectorsHoldLog(es: seq<Event>)
    ensures multiset(Intents(es) + Fills(es)) == multiset(es)
  {
    SplitKeepsAll(es);
  }

  lemma {:induction false} SplitIsPart(es: seq<Event>)
    ensures forall e :: e in Fills(es) ==> e in es && e.action.Fill?
    ensures forall e :: e in Intents(es) ==> e in es
  {
    if es != [] {
      SplitIsPart(es[..|es| - 1]);
      assert forall e :: e in es <==> e in es[..|es| - 1] || e == es[|es| - 1];
    }
  }

  lemma SplitSnoc(es: seq<Event>, e: Event)
    ensures Intents(es + [e]) == Intents(es) + (if e.action.Fill? then [] else [e])
    ensures Fills(es + [e]) == Fills(es) + (if e.action.Fill? then [e] else [])
  {
    assert (es + [e])[..|es|] == es;
  }

  lemma FillIsFill(submission: string, a: Attempt, serverId: nat, t: ParsedTrade, seqNo: nat)
    ensures FillEvent(submission, a, serverId, t, seqNo).action.Fill?
  {
  }

  // ----- the worker -----

  /**
   One expiry of the flush timer: whether there are latency samples to send, whether the batch goes out, and whether a
   broken stream can be reopened.
   */
  datatype Tick = Tick(samples: bool, sent: bool, reopened: bool)

  /** No failed send leaves the stream closed. */
  predicate KeptOpen(ticks: seq<seq<Tick>>) {
    forall i :: 0 <= i < |ticks| ==> forall k :: 0 <= k < |ticks[i]| ==> ticks[i][k].sent || ticks[i][k].reopened
  }

  /** Nothing goes wrong with the upload. */
  predicate AllSent(ticks: seq<seq<Tick>>) {
    forall i :: 0 <= i < |ticks| ==> forall k :: 0 <= k < |ticks[i]| ==> ticks[i][k].sent
  }

  /**
   Every record is in exactly one place: the first `mark` were handed over, delivered or lost, the rest are in the two
   vectors.
   */
  ghost predicate Placed(log: seq<Event>, mark: nat, orders: seq<Event>, trades: seq<Event>, delivered: seq<Event>,
                        lost: multiset<Event>) {
    && mark <= |log|
    && orders == Intents(log[mark..]) && trades == Fills(log[mark..])
    && multiset(delivered) + lost == multiset(log[..mark])
  }

  lemma NothingPlaced()
    ensures Placed([], 0, [], [], [], multiset{})
  {
  }

  lemma RecordPlaced(log: seq<Event>, mark: nat, orders: seq<Event>, trades: seq<Event>, delivered: seq<Event>,
                     lost: multiset<Event>, e: Event)
    requires Placed(log, mark, orders, trades, delivered, lost)
    ensures !e.action.Fill? ==> Placed(log + [e], mark, orders + [e], trades, delivered, lost)
    ensures e.action.Fill? ==> Placed(log + [e], mark, orders, trades + [e], delivered, lost)
  {
    hide Intents, Fills;
    assert (log + [e])[mark..] == log[mark..] + [e] && (log + [e])[..mark] == log[..mark];
    SplitSnoc(log[mark..], e);
  }

  lemma BatchPlaced(log: seq<Event>, mark: nat, orders: seq<Event>, trades: seq<Event>, delivered: seq<Event>,
                    lost: multiset<Event>)
    requires Placed(log, mark, orders, trades, delivered, lost)
    ensures Placed(log, |log|, [], [], delivered + (orders + trades), lost)
    ensures Placed(log, |log|, [], [], delivered, lost + multiset(orders + trades))
    ensures orders + trades == [] ==> Placed(log, |log|, [], [], delivered, lost)
  {
    hide Intents, Fills;
    NothingSplit();
    VectorsHoldLog(log[mark..]);
    assert log == log[..mark] + log[mark..] && log[|log|..] == [] && log[..|log|] == log;
  }

  lemma NothingSplit()
    ensures Intents([]) == [] && Fills([]) == []
  {
  }

  lemma DeliveredIsRecorded(log: seq<Event>, mark: nat, orders: seq<Event>, trades: seq<Event>,
                        delivered: seq<Event>, lost: multiset<Event>)
    requires Placed(log, mark, orders, trades, delivered, lost)
    ensures multiset(delivered) <= multiset(log)
    ensures mark == |log| ==> multiset(delivered) + lost == multiset(log)
  {
    hide Intents, Fills;
    assert log == log[..mark] + log[mark..];
    assert log[..|log|] == log;
  }

  /** Records of `log` other than the end marker. */
  ghost predicate Unmarked(es: seq<Event>, log: seq<Event>) {
    forall e :: e in es ==> !e.endOfRun && e in log
  }

  ghost predicate OnlyFills(es: seq<Event>) {
    forall e :: e in es ==> e.action.Fill?
  }

  /** What was delivered or is waiting was recorded. */
  lemma PlacedIsRecorded(log: seq<Event>, mark: nat, orders: seq<Event>, trades: seq<Event>, delivered: seq<Event>,
                         lost: multiset<Event>)
    requires Placed(log, mark, orders, trades, delivered, lost)
    ensures forall e :: e in delivered + orders ==> e in log
    ensures forall e :: e in trades ==> e in log && e.action.Fill?
  {
    hide Intents, Fills;
    SplitIsPart(log[mark..]);
    assert log == log[..mark] + log[mark..];
    forall e | e in delivered ensures e in log {
      assert e in multiset(delivered) && e in multiset(log[..mark]);
    }
  }

  /** If everything was sent from attempt `j` on, what was lost among the first `i` was recorded before attempt `j`. */
  ghost predicate LostBefore(submission: string, attempts: seq<Attempt>, ticks: seq<seq<Tick>>, i: nat,
                             lost: multiset<Event>)
    requires i <= |attempts| == |ticks|
  {
    forall j :: 0 <= j <= i && AllSent(ticks[j..]) ==> lost <= multiset(RunLog(submission, attempts[..j]))
  }

  lemma LostIsRecorded(log: seq<Event>, mark: nat, orders: seq<Event>, trades: seq<Event>, delivered: seq<Event>,
                       lost: multiset<Event>)
    requires Placed(log, mark, orders, trades, delivered, lost)
    ensures lost <= multiset(log)
  {
    assert log == log[..mark] + log[mark..];
    assert lost <= multiset(log[..mark]);
  }

  lemma NothingLostYet(log: seq<Event>, mark: nat, orders: seq<Event>, trades: seq<Event>, delivered: seq<Event>,
                       lost: multiset<Event>, submission: string, attempts: seq<Attempt>, ticks: seq<seq<Tick>>)
    requires Placed(log, mark, orders, trades, delivered, lost) && log == [] && |ticks| == |attempts|
    ensures LostBefore(submission, attempts, ticks, 0, lost)
  {
    LostIsRecorded(log, mark, orders, trades, delivered, lost);
  }

  lemma TicksOf(ticks: seq<seq<Tick>>, i: nat)
    requires i < |ticks|
    ensures KeptOpen(ticks) ==> KeptOpen([ticks[i]])
    ensures forall j :: 0 <= j <= i && AllSent(ticks[j..]) ==> AllSent([ticks[i]])
  {
    forall j | 0 <= j <= i && AllSent(ticks[j..]) ensures AllSent([ticks[i]]) {
      assert ticks[j..][i - j] == ticks[i];
    }
  }

  lemma LostLater(log: seq<Event>, mark: nat, orders: seq<Event>, trades: seq<Event>, delivered: seq<Event>,
                  was: multiset<Event>, lost: multiset<Event>, submission: string, attempts: seq<Attempt>,
                  ticks: seq<seq<Tick>>, i: nat)
    requires Placed(log, mark, orders, trades, delivered, lost) && i < |attempts| == |ticks|
    requires log == RunLog(submission, attempts[..i + 1])
    ensures LostBefore(submission, attempts, ticks, i, was) && (AllSent([ticks[i]]) ==> lost == was)
      ==> LostBefore(submission, attempts, ticks, i + 1, lost)
  {
    hide Placed, AllSent, RunLog;
    LostIsRecorded(log, mark, orders, trades, delivered, lost);
    TicksOf(ticks, i);
  }

  lemma {:induction false} RunLogPrefix(submission: string, attempts: seq<Attempt>, j: nat)
    requires j <= |attempts|
    ensures var before := RunLog(submission, attempts[..j]);
      |before| <= |RunLog(submission, attempts)| && RunLog(submission, attempts)[..|before|] == before
  {
    hide AttemptLog;
    if j == |attempts| {
      assert attempts[..j] == attempts;
    } else {
      var front := attempts[..|attempts| - 1];
      assert front[..j] == attempts[..j];
      RunLogPrefix(submission, front, j);
    }
  }

  /** What was recorded from attempt `j` on was delivered. */
  ghost predicate DeliveredFrom(submission: string, attempts: seq<Attempt>, j: nat, log: seq<Event>, delivered: seq<Event>)
    requires j <= |attempts|
  {
    var n := |RunLog(submission, attempts[..j])|;
    n <= |log| && multiset(log[n..]) <= multiset(delivered)
  }

  lemma Remaining(early: multiset<Event>, late: multiset<Event>, delivered: multiset<Event>, lost: multiset<Event>)
    requires delivered + lost == early + late && lost <= early
    ensures late <= delivered
  {
    forall e | e in late ensures late[e] <= delivered[e] {
      assert (delivered + lost)[e] == (early + late)[e];
    }
  }

  lemma LateIsDelivered(submission: string, attempts: seq<Attempt>, ticks: seq<seq<Tick>>, j: nat, log: seq<Event>,
                        delivered: seq<Event>, lost: multiset<Event>, end: Event)
    requires j <= |attempts| == |ticks| && AllSent(ticks[j..]) && LostBefore(submission, attempts, ticks, |attempts|, lost)
    requires log == RunLog(submission, attempts) + [end] && multiset(delivered) + lost == multiset(log)
    ensures DeliveredFrom(submission, attempts, j, log, delivered)
  {
    hide RunLog, AllSent;
    var before := RunLog(submission, attempts[..j]);
    RunLogPrefix(submission, attempts, j);
    assert lost <= multiset(before);
    assert log[..|before|] == before;
    assert log == before + log[|before|..];
    assert multiset(log) == multiset(before) + multiset(log[|before|..]);
    Remaining(multiset(before), multiset(log[|before|..]), multiset(delivered), lost);
  }

  lemma LateAreDelivered(submission: string, attempts: seq<Attempt>, ticks: seq<seq<Tick>>, log: seq<Event>,
                         delivered: seq<Event>, lost: multiset<Event>, end: Event)
    requires |attempts| == |ticks| && log == RunLog(submission, attempts) + [end]
    ensures LostBefore(submission, attempts, ticks, |attempts|, lost) && multiset(delivered) + lost == multiset(log) ==>
      forall j :: 0 <= j <= |attempts| && AllSent(ticks[j..]) ==> DeliveredFrom(submission, attempts, j, log, delivered)
    ensures LostBefore(submission, attempts, ticks, |attempts|, lost) && AllSent(ticks) ==> lost == multiset{}
    ensures AllSent(ticks) ==> KeptOpen(ticks)
  {
    hide RunLog, DeliveredFrom, LostBefore;
    if LostBefore(submission, attempts, ticks, |attempts|, lost) && multiset(delivered) + lost == multiset(log) {
      forall j | 0 <= j <= |attempts| && AllSent(ticks[j..]) ensures DeliveredFrom(submission, attempts, j, log, delivered) {
        LateIsDelivered(submission, attempts, ticks, j, log, delivered, lost, end);
      }
    }
    NoneLost(submission, attempts, ticks, lost);
  }

  lemma NoneLost(submission: string, attempts: seq<Attempt>, ticks: seq<seq<Tick>>, lost: multiset<Event>)
    requires |attempts| == |ticks|
    ensures LostBefore(submission, attempts, ticks, |attempts|, lost) && AllSent(ticks) ==> lost == multiset{}
  {
    hide AllSent;
    assert ticks[0..] == ticks && attempts[..0] == [];
  }

  lemma BeforeTheMarker(submission: string, attempts: seq<Attempt>, mark: nat, orders: seq<Event>, trades: seq<Event>,
                        delivered: seq<Event>, lost: multiset<Event>, end: Event)
    requires Placed(RunLog(submission, attempts), mark, orders, trades, delivered, lost)
    ensures var log := RunLog(submission, attempts) + [end];
      Unmarked(delivered + orders, log) && Unmarked(trades, log) && OnlyFills(trades)
  {
    hide RunLog, Placed;
    PlacedIsRecorded(RunLog(submission, attempts), mark, orders, trades, delivered, lost);
    LogHasNoEnd(submission, attempts);
  }

  /**
   The worker of a correctness run. `orders` and `trades` hold what was recorded since the last flush, `delivered` what
   the ingester has published so far, each batch's orders before its trades. `log` is everything recorded, in sequence
   order, and `lost` what a failed upload took with it.
   */
  class ThreadWorker {
    const submission: string
    var nextSeq: nat
    var orders: seq<Event>
    var trades: seq<Event>
    var streamOpen: bool
    var delivered: seq<Event>
    ghost var log: seq<Event>
    ghost var mark: nat
    ghost var lost: multiset<Event>

    ghost predicate Accounted()
      reads this
    {
      Placed(log, mark, orders, trades, delivered, lost)
    }

    ghost predicate Valid()
      reads this
    {
      Accounted() && nextSeq == |log| + 1
    }

    constructor (submission: string, streamOpen: bool)
      ensures Valid() && log == [] && delivered == [] && lost == multiset{}
      ensures this.submission == submission && this.streamOpen == streamOpen
    {
      this.submission, this.streamOpen := submission, streamOpen;
      nextSeq, orders, trades, delivered := 1, [], [], [];
      log, mark, lost := [], 0, multiset{};
      new;
      NothingPlaced();
    }

    /**
     The whole of `start`: the event loop, the end marker, and the last flush. `ticks[i]` fire during attempt `i`; with
     `cut` one more attempt is under way, its number reserved, when the loop is stopped, and `ticks` of it have fired.
     What the last flush sends behind the marker, the trades of the last batch, is `tail`.
     */
    method Start(attempts: seq<Attempt>, ticks: seq<seq<Tick>>, cut: bool, cutTicks: seq<Tick>, at: int, lastSent: bool)
      returns (ghost front: seq<Event>, ghost tail: seq<Event>)
      requires Valid() && log == [] && |ticks| == |attempts|
      modifies this
      ensures log == if cut then CutStream(submission, attempts, at) else Stream(submission, attempts, at)
      ensures multiset(delivered) <= multiset(log)
      ensures old(streamOpen) && AllSent(ticks) && AllSent([cutTicks]) && lastSent ==>
        && multiset(delivered) == multiset(log)
        && delivered == front + [log[|log| - 1]] + tail
      ensures old(streamOpen) && KeptOpen(ticks) && AllSent([cutTicks]) && lastSent ==>
        forall j :: 0 <= j <= |attempts| && AllSent(ticks[j..]) ==> DeliveredFrom(submission, attempts, j, log, delivered)
      ensures Unmarked(front, log) && Unmarked(tail, log) && OnlyFills(tail)
    {
      hide Placed, AllSent, KeptOpen, RunLog, EndEvent, Unmarked, OnlyFills, LostBefore, DeliveredFrom;
      SendOrders(attempts, ticks);
      ghost var missing := lost;
      if cut {
        CutOff(cutTicks);
      }
      front, tail := delivered + orders, trades;
      ghost var end := EndEvent(submission, at, nextSeq);
      BeforeTheMarker(submission, attempts, mark, orders, trades, delivered, lost, end);
      Finish(at, lastSent);
      assert log[|log| - 1] == end;
      LateAreDelivered(submission, attempts, ticks, log, delivered, missing, end);
    }

    /** The end marker, and the last flush. */
    method Finish(at: int, lastSent: bool)
      requires Accounted()
      modifies this
      ensures log == old(log) + [EndEvent(submission, at, old(nextSeq))]
      ensures multiset(delivered) <= multiset(log)
      ensures old(streamOpen) && lastSent ==>
        && multiset(delivered) + old(lost) == multiset(log)
        && delivered == old(delivered) + old(orders) + [EndEvent(submission, at, old(nextSeq))] + old(trades)
    {
      hide Placed, EndEvent;
      RecordEndOfRun(at);
      if streamOpen && (orders != [] || trades != []) {
        Upload(lastSent);
      }
      DeliveredIsRecorded(log, mark, orders, trades, delivered, lost);
    }

    /** The loop is stopped in the middle of an attempt: nothing is recorded of it, but its number is gone. */
    method CutOff(ticks: seq<Tick>)
      requires Valid()
      modifies this
      ensures Accounted() && log == old(log) && nextSeq == old(nextSeq) + 1
      ensures old(streamOpen) && KeptOpen([ticks]) ==> streamOpen
      ensures old(streamOpen) && AllSent([ticks]) ==> streamOpen && lost == old(lost)
    {
      hide Placed;
      nextSeq := nextSeq + 1;
      FlushTicks(ticks);
    }

    /** The flush timer fires while an attempt waits for its answer. */
    method FlushTicks(ticks: seq<Tick>)
      requires Accounted()
      modifies this`orders, this`trades, this`delivered, this`streamOpen, this`mark, this`lost
      ensures Accounted()
      ensures old(streamOpen) && KeptOpen([ticks]) ==> streamOpen
      ensures old(streamOpen) && AllSent([ticks]) ==> streamOpen && lost == old(lost)
    {
      hide Placed;
      for k := 0 to |ticks|
        invariant Accounted()
        invariant old(streamOpen) && (forall m :: 0 <= m < k ==> ticks[m].sent || ticks[m].reopened) ==> streamOpen
        invariant old(streamOpen) && (forall m :: 0 <= m < k ==> ticks[m].sent) ==> streamOpen && lost == old(lost)
      {
        FlushTick(ticks[k]);
      }
      assert KeptOpen([ticks]) ==> forall m :: 0 <= m < |ticks| ==> [ticks][0][m].sent || [ticks][0][m].reopened;
      assert AllSent([ticks]) ==> forall m :: 0 <= m < |ticks| ==> [ticks][0][m].sent;
    }

    method SendOrders(attempts: seq<Attempt>, ticks: seq<seq<Tick>>)
      requires Valid() && log == [] && |ticks| == |attempts|
      modifies this
      ensures Valid() && log == RunLog(submission, attempts)
      ensures old(streamOpen) && KeptOpen(ticks) ==> streamOpen
      ensures old(streamOpen) && KeptOpen(ticks) ==> LostBefore(submission, attempts, ticks, |attempts|, lost)
    {
      hide Placed, KeptOpen, AllSent, LostBefore;
      NothingLostYet(log, mark, orders, trades, delivered, lost, submission, attempts, ticks);
      for i := 0 to |attempts|
        invariant Valid() && log == RunLog(submission, attempts[..i])
        invariant old(streamOpen) && KeptOpen(ticks) ==> streamOpen
        invariant old(streamOpen) && KeptOpen(ticks) ==> LostBefore(submission, attempts, ticks, i, lost)
      {
        assert attempts[..i + 1][..i] == attempts[..i];
        ghost var was := lost;
        TicksOf(ticks, i);
        SendOne(attempts[i], ticks[i]);
        LostLater(log, mark, orders, trades, delivered, was, lost, submission, attempts, ticks, i);
      }
      assert attempts[..|attempts|] == attempts;
    }

    /** One attempt: reserve a number, wait for the answer while the timer may fire, record what came back. */
    method SendOne(a: Attempt, ticks: seq<Tick>)
      requires Valid()
      modifies this
      ensures Valid() && log == old(log) + AttemptLog(submission, a, |old(log)| + 1)
      ensures old(streamOpen) && KeptOpen([ticks]) ==> streamOpen
      ensures old(streamOpen) && AllSent([ticks]) ==> streamOpen && lost == old(lost)
      ensures var e := log[|old(log)|];
        && (e.outcome.Rejected? <==> a.response.Answered? && 400 <= a.response.status <= 499)
        && (e.outcome.Ok? <==>
              a.response.Answered? && a.response.status == 200 && a.response.parsed && a.response.orderId != 0)
        && |log| == |old(log)| + 1 + (if e.outcome.Ok? then |a.response.trades| else 0)
    {
      hide Placed, IntentEvent, FillEvents, AttemptLog, KeptOpen, AllSent;
      var orderSeq := nextSeq;
      nextSeq := nextSeq + 1;
      FlushTicks(ticks);
      OutcomeRecorded(submission, a, orderSeq);
      AttemptShape(submission, a, orderSeq);
      ghost var before := log;
      match a.response {
        case WriteFailed => EmitIntent(a, Unknown, 0, orderSeq);
        case HeaderLost => EmitIntent(a, Unknown, 0, orderSeq);
        case TimedOut => EmitIntent(a, Unknown, 0, orderSeq);
        case BodyLost => EmitIntent(a, Unknown, 0, orderSeq);
        case Answered(status, parsed, orderId, reported) =>
          if status == 200 {
            if !parsed || orderId == 0 {
              EmitIntent(a, Unknown, 0, orderSeq);
            } else {
              EmitIntent(a, Ok, orderId, orderSeq);
              RecordTrades(a, orderId, reported);
              assert before + [IntentEvent(submission, a, Ok, orderId, orderSeq)]
                + FillEvents(submission, a, orderId, reported, orderSeq + 1) == before + AttemptLog(submission, a, orderSeq);
            }
          } else if 400 <= status < 500 {
            EmitIntent(a, Rejected, 0, orderSeq);
          } else {
            EmitIntent(a, Unknown, 0, orderSeq);
          }
      }
    }

    /** The timer: send what there is, reopen a broken stream if possible, and start over with empty vectors. */
    method FlushTick(tick: Tick)
      requires Accounted()
      modifies this`orders, this`trades, this`delivered, this`streamOpen, this`mark, this`lost
      ensures Accounted() && mark == |log| && orders == [] && trades == []
      ensures old(streamOpen) && (old(orders) != [] || old(trades) != [] || tick.samples) ==>
        && streamOpen == (tick.sent || tick.reopened)
        && delivered == (if tick.sent then old(delivered) + (old(orders) + old(trades)) else old(delivered))
        && lost == (if tick.sent then old(lost) else old(lost) + multiset(old(orders) + old(trades)))
      ensures !(old(streamOpen) && (old(orders) != [] || old(trades) != [] || tick.samples)) ==>
        && streamOpen == old(streamOpen) && delivered == old(delivered)
        && lost == old(lost) + multiset(old(orders) + old(trades))
    {
      hide Placed;
      BatchPlaced(log, mark, orders, trades, delivered, lost);
      if streamOpen && (orders != [] || trades != [] || tick.samples) {
        if tick.sent {
          delivered := delivered + (orders + trades);
        } else {
          lost := lost + multiset(orders + trades);
          streamOpen := tick.reopened;
        }
      } else {
        lost := lost + multiset(orders + trades);
      }
      orders, trades, mark := [], [], |log|;
    }

    /** The last flush; nobody looks at whether it succeeded. */
    method Upload(sent: bool)
      requires Accounted()
      modifies this`orders, this`trades, this`delivered, this`mark, this`lost
      ensures Accounted() && mark == |log| && orders == [] && trades == []
      ensures sent ==> lost == old(lost) && delivered == old(delivered) + (old(orders) + old(trades))
    {
      hide Placed;
      BatchPlaced(log, mark, orders, trades, delivered, lost);
      if sent {
        delivered := delivered + (orders + trades);
      } else {
        lost := lost + multiset(orders + trades);
      }
      orders, trades, mark := [], [], |log|;
    }

    method EmitIntent(a: Attempt, outcome: Outcome, serverId: nat, orderSeq: nat)
      requires Accounted() && nextSeq == orderSeq + 1 == |log| + 2
      modifies this`orders, this`log
      ensures Valid() && log == old(log) + [IntentEvent(submission, a, outcome, serverId, orderSeq)]
    {
      var e := IntentEvent(submission, a, outcome, serverId, orderSeq);
      IntentIsOrder(submission, a, outcome, serverId, orderSeq);
      hide Placed, IntentEvent;
      RecordPlaced(log, mark, orders, trades, delivered, lost, e);
      orders := orders + [e];
      log := log + [e];
    }

    method RecordTrades(a: Attempt, serverId: nat, reported: seq<ParsedTrade>)
      requires Valid()
      modifies this`trades, this`log, this`nextSeq
      ensures Valid() && log == old(log) + FillEvents(submission, a, serverId, reported, |old(log)| + 1)
    {
      hide Placed, FillEvent;
      ghost var first := nextSeq;
      for i := 0 to |reported|
        invariant Valid() && nextSeq == first + i
        invariant log == old(log) + FillEvents(submission, a, serverId, reported[..i], first)
      {
        var e := FillEvent(submission, a, serverId, reported[i], nextSeq);
        assert reported[..i + 1][..i] == reported[..i];
        FillIsFill(submission, a, serverId, reported[i], nextSeq);
        RecordPlaced(log, mark, orders, trades, delivered, lost, e);
        trades := trades + [e];
        log := log + [e];
        nextSeq := nextSeq + 1;
      }
      assert reported[..|reported|] == reported;
    }

    /** Recorded once, after the event loop stops. */
    method RecordEndOfRun(at: int)
      requires Accounted()
      modifies this`orders, this`log, this`nextSeq
      ensures Accounted() && nextSeq == old(nextSeq) + 1
      ensures log == old(log) + [EndEvent(submission, at, old(nextSeq))]
      ensures orders == old(orders) + [EndEvent(submission, at, old(nextSeq))] && lost == old(lost)
    {
      var e := EndEvent(submission, at, nextSeq);
      hide Placed;
      RecordPlaced(log, mark, orders, trades, delivered, lost, e);
      orders := orders + [e];
      log := log + [e];
      nextSeq := nextSeq + 1;
    }
  }
}
