/** The differential replay as a fold over events sorted by sequence number, and its verdict policy. */
module ReplaySpec {
  import opened MarketTypes
  import opened RankedBook
  import opened Differential
  import StableSort

  /** The bookkeeping of one replay; the golden books are kept beside it. */
  datatype Tally = Tally(
    serverToBot: map<nat, string>,
    seen: set<nat>,
    maxSeq: nat,
    expected: map<string, seq<Trade>>,
    observed: map<string, seq<ObservedFill>>,
    aggressors: seq<string>,
    aggTicker: map<string, string>,
    aggSeq: map<string, nat>,
    firstUnverifiable: map<string, nat>,
    attempts: nat,
    unknown: nat)

  const START := Tally(map[], {}, 0, map[], map[], [], map[], map[], map[], 0, 0)

  datatype State = State(books: map<string, Book>, tally: Tally)

  function BookFor(books: map<string, Book>, ticker: string): Book {
    if ticker in books then books[ticker] else EMPTY
  }

  function MarkTaint(first: map<string, nat>, ticker: string, seqNo: nat): map<string, nat> {
    if ticker == "" then first
    else if ticker !in first || seqNo < first[ticker] then first[ticker := seqNo]
    else first
  }

  predicate Duplicate(t: Tally, ev: Event) {
    ev.seqNo != 0 && ev.seqNo in t.seen
  }

  function Note(t: Tally, ev: Event): Tally {
    if ev.seqNo == 0 then t
    else t.(seen := t.seen + {ev.seqNo}, maxSeq := if ev.seqNo > t.maxSeq then ev.seqNo else t.maxSeq)
  }

  function NoteUnknown(t: Tally, ev: Event): Tally {
    t.(attempts := t.attempts + 1, unknown := t.unknown + 1,
       firstUnverifiable := MarkTaint(t.firstUnverifiable, ev.ticker, ev.seqNo))
  }

  function NoteAttempt(t: Tally): Tally {
    t.(attempts := t.attempts + 1)
  }

  function NoteIntent(t: Tally, ev: Event, trades: seq<Trade>): Tally {
    t.(attempts := t.attempts + 1,
       serverToBot := if ev.contestantOrderId != 0 then t.serverToBot[ev.contestantOrderId := ev.orderId] else t.serverToBot,
       expected := t.expected[ev.orderId := trades],
       aggressors := t.aggressors + [ev.orderId],
       aggTicker := t.aggTicker[ev.orderId := ev.ticker],
       aggSeq := t.aggSeq[ev.orderId := ev.seqNo])
  }

  function ObservedOf(t: Tally, agg: string): seq<ObservedFill> {
    if agg in t.observed then t.observed[agg] else []
  }

  function ExpectedOf(t: Tally, agg: string): seq<Trade> {
    if agg in t.expected then t.expected[agg] else []
  }

  function FillOf(t: Tally, ev: Event): ObservedFill {
    var known := ev.matchedOrderId in t.serverToBot;
    ObservedFill(if known then t.serverToBot[ev.matchedOrderId] else "", known, ev.matchedOrderId, ev.volume, ev.executionPrice)
  }

  function NoteFill(t: Tally, ev: Event): Tally {
    if ev.aggressorOrderId == "" then t
    else t.(observed := t.observed[ev.aggressorOrderId := ObservedOf(t, ev.aggressorOrderId) + [FillOf(t, ev)]])
  }

  /**
   The source cancels in the first book, in map order, that has the order live. `At` names that book;
   `Everywhere` asks every book, which comes to the same thing when no id is live twice.
   */
  datatype CancelRule = Everywhere | At(ticker: string)

  function CancelIn(books: map<string, Book>, bot: string, rule: CancelRule): map<string, Book> {
    match rule
    case Everywhere => map t | t in books :: CancelOrder(books[t], bot)
    case At(t) => if t in books then books[t := CancelOrder(books[t], bot)] else books
  }

  /** What a recorded event does once it is known not to be a redelivery. */
  function Process(st: State, ev: Event, rule: CancelRule): State {
    var t := st.tally;
    if ev.endOfRun then st
    else match ev.outcome
      case Unknown => st.(tally := NoteUnknown(t, ev))
      case Rejected => st.(tally := NoteAttempt(t))
      case Ok =>
        match ev.action
        case Intent(side) =>
          var b := BookFor(st.books, ev.ticker);
          State(st.books[ev.ticker := Submit(b, ev.orderId, side, ev.orderType, ev.price, ev.volume)],
                NoteIntent(t, ev, SubmitTrades(b, ev.orderId, side, ev.orderType, ev.price, ev.volume)))
        case Cancel =>
          if ev.cancelTargetId != 0 && ev.cancelTargetId in t.serverToBot then
            State(CancelIn(st.books, t.serverToBot[ev.cancelTargetId], rule), NoteAttempt(t))
          else st.(tally := NoteAttempt(t))
        case Fill => st.(tally := NoteFill(t, ev))
        case OtherAction => st
  }

  function Step(st: State, ev: Event, rule: CancelRule): State {
    if Duplicate(st.tally, ev) then st
    else Process(st.(tally := Note(st.tally, ev)), ev, rule)
  }

  /** The replay with every cancel asked of every book: no choice is left open. */
  function Fold(es: seq<Event>): State {
    if es == [] then State(map[], START)
    else Step(Fold(es[..|es| - 1]), es[|es| - 1], Everywhere)
  }

  /** The replay with the book each cancel happens to hit first given by `picks`. */
  function FoldPicks(es: seq<Event>, picks: seq<string>): State
    requires |picks| == |es|
  {
    if es == [] then State(map[], START)
    else Step(FoldPicks(es[..|es| - 1], picks[..|es| - 1]), es[|es| - 1], At(picks[|es| - 1]))
  }

  /** This event makes the replay look for an order to cancel. */
  predicate Cancels(t: Tally, ev: Event) {
    && !Duplicate(t, ev) && !ev.endOfRun && ev.outcome.Ok? && ev.action.Cancel?
    && ev.cancelTargetId != 0 && ev.cancelTargetId in t.serverToBot
  }

  predicate LiveIn(books: map<string, Book>, t: string, bot: string) {
    t in books && bot in books[t].live
  }

  /** A pick is one a walk over the books could make: a book that has the order live, if there is one. */
  ghost predicate PickOk(st: State, ev: Event, pick: string) {
    Cancels(st.tally, ev) ==>
      var bot := st.tally.serverToBot[ev.cancelTargetId];
      (exists t :: LiveIn(st.books, t, bot)) ==> LiveIn(st.books, pick, bot)
  }

  ghost predicate PicksOk(es: seq<Event>, picks: seq<string>)
    requires |picks| == |es|
  {
    es == [] || (
      && PicksOk(es[..|es| - 1], picks[..|es| - 1])
      && PickOk(FoldPicks(es[..|es| - 1], picks[..|es| - 1]), es[|es| - 1], picks[|es| - 1]))
  }

  // ----- the verdict -----

  /** Holes in the sequence numbers below the highest one seen. */
  function Gap(t: Tally): nat {
    if 0 < t.maxSeq && |t.seen| < t.maxSeq then t.maxSeq - |t.seen| else 0
  }

  function Orphans(t: Tally): set<string> {
    t.observed.Keys - t.expected.Keys
  }

  predicate GlobalTaint(t: Tally) {
    0 < Gap(t) || Orphans(t) != {}
  }

  function TickerOf(t: Tally, agg: string): string {
    if agg in t.aggTicker then t.aggTicker[agg] else ""
  }

  function SeqOf(t: Tally, agg: string): nat {
    if agg in t.aggSeq then t.aggSeq[agg] else 0
  }

  ghost function DiffOf(t: Tally, agg: string): Verdict {
    Diff(ExpectedOf(t, agg), ObservedOf(t, agg))
  }

  predicate TaintedAt(first: map<string, nat>, ticker: string, seqNo: nat) {
    ticker in first && first[ticker] < seqNo
  }

  /** Running totals of the per-order comparison, in sequence order. */
  datatype Judged = Judged(first: map<string, nat>, mismatches: nat, unverifiable: nat, hard: bool)

  function JudgeOne(t: Tally, j: Judged, agg: string, v: Verdict): Judged {
    match v
    case Correct => j
    case Incorrect =>
      if GlobalTaint(t) || TaintedAt(j.first, TickerOf(t, agg), SeqOf(t, agg)) then
        j.(mismatches := j.mismatches + 1, first := MarkTaint(j.first, TickerOf(t, agg), SeqOf(t, agg)))
      else j.(hard := true)
    case Unverified =>
      j.(unverifiable := j.unverifiable + 1, first := MarkTaint(j.first, TickerOf(t, agg), SeqOf(t, agg)))
  }

  ghost function Judge(t: Tally, n: nat): Judged
    requires n <= |t.aggressors|
  {
    if n == 0 then Judged(t.firstUnverifiable, 0, 0, false)
    else JudgeOne(t, Judge(t, n - 1), t.aggressors[n - 1], DiffOf(t, t.aggressors[n - 1]))
  }

  /** The policy: a clean divergence fails the run; otherwise the unverifiable share decides. */
  function Policy(t: Tally, j: Judged): Verdict {
    var unverifiable := t.unknown + Gap(t) + |Orphans(t)| + j.unverifiable + j.mismatches;
    if j.hard then Incorrect
    else if t.attempts == 0 then (if unverifiable == 0 then Correct else Unverified)
    else if 2 * unverifiable > t.attempts then Unverified
    else if 20 * unverifiable >= t.attempts then Unverified
    else if 0 < j.mismatches || 0 < j.unverifiable || Orphans(t) != {} then Unverified
    else Correct
  }

  ghost function VerdictOf(t: Tally): Verdict {
    Policy(t, Judge(t, |t.aggressors|))
  }

  function SortBySeq(es: seq<Event>): seq<Event> {
    StableSort.SortByKey(es, (e: Event) => e.seqNo)
  }

  ghost function ReplayVerdict(es: seq<Event>): Verdict {
    VerdictOf(Fold(SortBySeq(es)).tally)
  }

  predicate HasEnd(es: seq<Event>) {
    exists e :: e in es && e.endOfRun
  }

  /** Without the end-of-run marker nothing is concluded. */
  ghost function Finalize(es: seq<Event>): Verdict {
    if HasEnd(es) then ReplayVerdict(es) else Unverified
  }

  /** A verdict the replay can reach on these events, whichever book each of its cancels happens to reach first. */
  ghost predicate MayFinalize(es: seq<Event>, v: Verdict) {
    if HasEnd(es) then exists picks :: Reaches(SortBySeq(es), picks, v) else v == Unverified
  }

  ghost predicate Reaches(sorted: seq<Event>, picks: seq<string>, v: Verdict) {
    |picks| == |sorted| && PicksOk(sorted, picks) && v == VerdictOf(FoldPicks(sorted, picks).tally)
  }
}
