/** The vocabulary the checker, the load generator and the reference server share. */
module MarketTypes {
  datatype Side = Buy | Sell

  /** The `order_type` of an intent; `OtherType` stands for any spelling the checker does not recognise. */
  datatype OrderType = Limit | Market | FillOrKill | FillAndKill | GoodForDay | OtherType

  datatype Verdict = Correct | Incorrect | Unverified

  /** The attempt result the writer stamps on an intent; an empty string reads as `Ok`. */
  datatype Outcome = Ok | Rejected | Unknown

  /** The `action` of an event after trimming and upper-casing; `OtherAction` is ignored by the replay. */
  datatype Action = Intent(side: Side) | Cancel | Fill | OtherAction

  /** One record of the execution log. Prices are integer ticks; 0 and "" mean "absent", as on the wire. */
  datatype Event = Event(
    submission: string,
    timestamp: int,
    orderId: string,
    action: Action,
    price: int,
    volume: int,
    ticker: string,
    orderType: OrderType,
    seqNo: nat,
    contestantOrderId: nat,
    matchedOrderId: nat,
    cancelTargetId: nat,
    executionPrice: int,
    aggressorOrderId: string,
    endOfRun: bool,
    outcome: Outcome)

  function Opposite(s: Side): Side {
    if s.Buy? then Sell else Buy
  }

  function Min(a: int, b: int): int {
    if a <= b then a else b
  }

  /** A resting order on side `s` at price `p` has strictly better price priority than one at `q`. */
  predicate Better(s: Side, p: int, q: int) {
    if s.Buy? then p > q else p < q
  }

  /** An aggressor on side `s` is willing to trade at a resting price. */
  predicate Crosses(s: Side, market: bool, limit: int, price: int) {
    market || (if s.Buy? then price <= limit else price >= limit)
  }
}
