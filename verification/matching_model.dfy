/** The matching engine as a function of its state: what one command does to the books, the order
    directory and the counters, and which events it emits. The classes MatchingBook and
    MatchingEngine are proved against these definitions; the theorems are about them. */
module MatchingModel {
  import opened ExchangeTypes

  // ---------- one side of one book, in price-time priority ----------

  /** Price p has strictly higher priority than price q on this side. */
  predicate Better(side: Side, p: Price, q: Price) {
    if side.Buy? then p > q else p < q
  }

  /** An incoming order on `side` limited at `limit` trades against a resting order at `resting`. */
  predicate Crosses(side: Side, limit: Price, resting: Price) {
    if side.Buy? then limit >= resting else limit <= resting
  }

  /** How many orders rest ahead of a newcomer at price p: everything at p or better. */
  function Rank(side: Side, s: seq<BookOrder>, p: Price): (k: nat)
    ensures k <= |s|
  {
    if s == [] || Better(side, p, s[0].price) then 0 else 1 + Rank(side, s[1..], p)
  }

  function Insert(s: seq<BookOrder>, o: BookOrder): seq<BookOrder> {
    var k := Rank(o.side, s, o.price);
    s[..k] + [o] + s[k..]
  }

  predicate HasId(s: seq<BookOrder>, id: ExchangeOrderId) {
    exists i :: 0 <= i < |s| && s[i].exchangeOrderId == id
  }

  function IndexOf(s: seq<BookOrder>, id: ExchangeOrderId): (i: nat)
    requires HasId(s, id)
    ensures i < |s| && s[i].exchangeOrderId == id
  {
    if s[0].exchangeOrderId == id then 0
    else
      assert HasId(s[1..], id) by {
        var i :| 0 <= i < |s| && s[i].exchangeOrderId == id;
        assert s[1..][i - 1].exchangeOrderId == id;
      }
      1 + IndexOf(s[1..], id)
  }

  function WithoutAt(s: seq<BookOrder>, i: nat): seq<BookOrder>
    requires i < |s|
  {
    s[..i] + s[i + 1..]
  }

  // ---------- engine state ----------

  datatype BookView = BookView(bids: seq<BookOrder>, asks: seq<BookOrder>) {
    function Orders(side: Side): seq<BookOrder> {
      if side.Buy? then bids else asks
    }

    function With(side: Side, s: seq<BookOrder>): BookView {
      if side.Buy? then this.(bids := s) else this.(asks := s)
    }

    predicate Holds(id: ExchangeOrderId) {
      HasId(bids, id) || HasId(asks, id)
    }

    function SideHolding(id: ExchangeOrderId): (side: Side)
      requires Holds(id)
      ensures HasId(Orders(side), id)
    {
      if HasId(bids, id) then Buy else Sell
    }

    function Find(id: ExchangeOrderId): (o: BookOrder)
      requires Holds(id)
      ensures o.exchangeOrderId == id
    {
      var s := Orders(SideHolding(id));
      s[IndexOf(s, id)]
    }

    function Without(id: ExchangeOrderId): BookView
      requires Holds(id)
    {
      var side := SideHolding(id);
      With(side, WithoutAt(Orders(side), IndexOf(Orders(side), id)))
    }

    function Replacing(id: ExchangeOrderId, o: BookOrder): BookView
      requires Holds(id)
    {
      var side := SideHolding(id);
      With(side, Orders(side)[IndexOf(Orders(side), id) := o])
    }
  }

  const EMPTY_BOOK := BookView([], [])

  /** A directory entry; the slab handle appears here as the id of the order it locates. */
  datatype OrderRef = OrderRef(
    originalQuantity: Quantity,
    orderSequence: nat,
    exchangeOrderId: ExchangeOrderId,
    instrumentId: InstrumentId)

  datatype EngineState = EngineState(
    books: map<InstrumentId, BookView>,
    directory: map<LiveKey, OrderRef>,
    nextExchangeOrderId: ExchangeOrderId,
    nextEventSequence: nat,
    nextPriority: nat)
  {
    predicate Knows(id: InstrumentId) {
      id in books
    }
  }

  datatype StepResult = StepResult(state: EngineState, events: seq<Event>)

  datatype MatchResult = MatchResult(state: EngineState, incoming: RestingOrder, events: seq<Event>)

  // ---------- matching ----------

  function Contra(st: EngineState, incoming: RestingOrder): seq<BookOrder>
    requires incoming.instrumentId in st.books
  {
    st.books[incoming.instrumentId].Orders(incoming.side.Opposite())
  }

  predicate CanFill(st: EngineState, incoming: RestingOrder)
    requires incoming.instrumentId in st.books
  {
    var contra := Contra(st, incoming);
    && incoming.remainingQuantity > 0
    && contra != []
    && Crosses(incoming.side, incoming.price, contra[0].price)
  }

  /** One turn of the matching loop: trade with the front order, then reduce or remove it. */
  function FillOnce(st: EngineState, incoming: RestingOrder, commandSequence: nat): (r: MatchResult)
    requires incoming.instrumentId in st.books
    requires CanFill(st, incoming)
    ensures incoming.instrumentId in r.state.books
    ensures r.incoming.instrumentId == incoming.instrumentId && r.incoming.side == incoming.side
  {
    var id := incoming.instrumentId;
    var contraSide := incoming.side.Opposite();
    var contra := Contra(st, incoming);
    var front := contra[0];
    var quantity := Min(incoming.remainingQuantity, front.remainingQuantity);
    var after := front.remainingQuantity - quantity;
    var incoming' := incoming.(remainingQuantity := incoming.remainingQuantity - quantity);
    var aggressor := Counterparty(incoming.accountId, incoming.clientOrderId, incoming.exchangeOrderId,
                                  incoming'.remainingQuantity);
    var resting := Counterparty(front.accountId, front.clientOrderId, front.exchangeOrderId, after);
    var trade := TradeExecuted(st.nextEventSequence, commandSequence, id, front.price, quantity, incoming.side,
                               if incoming.side.Buy? then aggressor else resting,
                               if incoming.side.Buy? then resting else aggressor);
    var book := st.books[id];
    if after == 0 then
      MatchResult(
        st.(books := st.books[id := book.With(contraSide, contra[1..])],
            directory := st.directory - {front.Key()},
            nextEventSequence := st.nextEventSequence + 2),
        incoming',
        [trade, BookOrderRemoved(st.nextEventSequence + 1, id, front.exchangeOrderId, front.side, front.price)])
    else
      MatchResult(
        st.(books := st.books[id := book.With(contraSide, contra[0 := front.(remainingQuantity := after)])],
            nextEventSequence := st.nextEventSequence + 2),
        incoming',
        [trade, BookOrderReduced(st.nextEventSequence + 1, id, front.exchangeOrderId, front.side, front.price, after)])
  }

  function MatchLoop(st: EngineState, incoming: RestingOrder, commandSequence: nat): (r: MatchResult)
    requires incoming.instrumentId in st.books
    ensures incoming.instrumentId in r.state.books
    ensures r.incoming == incoming.(remainingQuantity := r.incoming.remainingQuantity)
    decreases |Contra(st, incoming)|, incoming.remainingQuantity
  {
    if CanFill(st, incoming) then
      var one := FillOnce(st, incoming, commandSequence);
      var rest := MatchLoop(one.state, one.incoming, commandSequence);
      rest.(events := one.events + rest.events)
    else
      MatchResult(st, incoming, [])
  }

  /** A GTC remainder rests and is announced; any other remainder is discarded silently. */
  function RestRemainder(st: EngineState, order: RestingOrder): (r: StepResult)
    requires order.instrumentId in st.books
  {
    if order.timeInForce != GTC || order.remainingQuantity == 0 then
      StepResult(st, [])
    else
      var id := order.instrumentId;
      var book := st.books[id];
      StepResult(
        st.(books := st.books[id := book.With(order.side, Insert(book.Orders(order.side), order.ToBookOrder()))],
            directory := st.directory[order.Key() :=
              OrderRef(order.originalQuantity, order.orderSequence, order.exchangeOrderId, id)],
            nextEventSequence := st.nextEventSequence + 1),
        [BookOrderAdded(st.nextEventSequence, id, order.exchangeOrderId, order.side, order.price,
                        order.remainingQuantity)])
  }

  function MatchAndRest(st: EngineState, order: RestingOrder, commandSequence: nat): StepResult
    requires order.instrumentId in st.books
  {
    var m := MatchLoop(st, order, commandSequence);
    var r := RestRemainder(m.state, m.incoming);
    StepResult(r.state, m.events + r.events)
  }

  /** The fill-or-kill pre-check: adds up crossing orders front to back, stopping once `quantity` is covered. */
  function CrossableQuantity(s: seq<BookOrder>, side: Side, limit: Price, quantity: Quantity): nat {
    if s == [] || !Crosses(side, limit, s[0].price) then 0
    else if s[0].remainingQuantity >= quantity then s[0].remainingQuantity
    else s[0].remainingQuantity
         + CrossableQuantity(s[1..], side, limit, quantity - s[0].remainingQuantity)
  }

  // ---------- commands ----------

  function Reject(st: EngineState, commandSequence: nat, accountId: AccountId, clientOrderId: ClientOrderId,
                  instrumentId: InstrumentId, reason: RejectReason): StepResult
  {
    StepResult(st.(nextEventSequence := st.nextEventSequence + 1),
               [OrderRejected(st.nextEventSequence, commandSequence, accountId, clientOrderId, instrumentId, reason)])
  }

  function RejectCommand(st: EngineState, cmd: Command, reason: RejectReason): StepResult {
    match cmd
    case NewOrder(seqNo, acct, cid, id, _, _, _, _, _) => Reject(st, seqNo, acct, cid, id, reason)
    case CancelOrder(seqNo, acct, cid, id) => Reject(st, seqNo, acct, cid, id, reason)
    case ReplaceOrder(seqNo, acct, original, _, id, _, _) => Reject(st, seqNo, acct, original, id, reason)
  }

  /** The checks a new order must pass, in the order they are made. */
  function NewOrderVerdict(st: EngineState, cmd: Command): RejectReason
    requires cmd.NewOrder?
  {
    if !st.Knows(cmd.instrumentId) then InvalidInstrument
    else if cmd.price <= 0 then InvalidPrice
    else if cmd.quantity == 0 then InvalidQuantity
    else if LiveKey(cmd.accountId, cmd.clientOrderId) in st.directory then DuplicateOrderId
    else if cmd.timeInForce == FOK
            && CrossableQuantity(st.books[cmd.instrumentId].Orders(cmd.side.Opposite()), cmd.side, cmd.price,
                                 cmd.quantity) < cmd.quantity
    then InsufficientLiquidity
    else NoReason
  }

  function AcceptedOrder(st: EngineState, cmd: Command): RestingOrder
    requires cmd.NewOrder?
  {
    RestingOrder(st.nextExchangeOrderId, cmd.clientOrderId, cmd.accountId, cmd.price, cmd.quantity, cmd.quantity,
                 st.nextPriority, cmd.instrumentId, cmd.side, cmd.timeInForce)
  }

  /** The counters after an order took an exchange id and a priority, and one event went out. */
  function AfterAcceptance(st: EngineState): EngineState {
    st.(nextExchangeOrderId := st.nextExchangeOrderId + 1,
        nextPriority := st.nextPriority + 1,
        nextEventSequence := st.nextEventSequence + 1)
  }

  function ProcessNewOrder(st: EngineState, cmd: Command): StepResult
    requires cmd.NewOrder?
  {
    var verdict := NewOrderVerdict(st, cmd);
    if verdict != NoReason then RejectCommand(st, cmd, verdict)
    else
      var order := AcceptedOrder(st, cmd);
      var accepted := OrderAccepted(st.nextEventSequence, cmd.commandSequence, cmd.accountId, cmd.clientOrderId,
                                    order.exchangeOrderId, cmd.instrumentId, cmd.side, cmd.price, cmd.quantity,
                                    cmd.orderType, cmd.timeInForce);
      var r := MatchAndRest(AfterAcceptance(st), order, cmd.commandSequence);
      StepResult(r.state, [accepted] + r.events)
  }

  /** Every directory entry locates an order that rests in the book it names. */
  predicate Locates(st: EngineState) {
    forall k :: k in st.directory ==>
      && st.directory[k].instrumentId in st.books
      && st.books[st.directory[k].instrumentId].Holds(st.directory[k].exchangeOrderId)
  }

  function CancelVerdict(st: EngineState, cmd: Command): RejectReason
    requires cmd.CancelOrder?
  {
    var key := LiveKey(cmd.accountId, cmd.clientOrderId);
    if !st.Knows(cmd.instrumentId) then InvalidInstrument
    else if key !in st.directory || st.directory[key].instrumentId != cmd.instrumentId then UnknownOrderId
    else NoReason
  }

  function ProcessCancel(st: EngineState, cmd: Command): StepResult
    requires cmd.CancelOrder? && Locates(st)
  {
    var verdict := CancelVerdict(st, cmd);
    if verdict != NoReason then RejectCommand(st, cmd, verdict)
    else
      var key := LiveKey(cmd.accountId, cmd.clientOrderId);
      var id := cmd.instrumentId;
      var removed := st.books[id].Find(st.directory[key].exchangeOrderId);
      StepResult(
        st.(books := st.books[id := st.books[id].Without(removed.exchangeOrderId)],
            directory := st.directory - {key},
            nextEventSequence := st.nextEventSequence + 2),
        [OrderCancelled(st.nextEventSequence, cmd.commandSequence, cmd.accountId, cmd.clientOrderId,
                        removed.exchangeOrderId, id),
         BookOrderRemoved(st.nextEventSequence + 1, id, removed.exchangeOrderId, removed.side, removed.price)])
  }

  function ReplaceVerdict(st: EngineState, cmd: Command): RejectReason
    requires cmd.ReplaceOrder?
  {
    var key := LiveKey(cmd.accountId, cmd.originalClientOrderId);
    if !st.Knows(cmd.instrumentId) then InvalidInstrument
    else if cmd.newPrice <= 0 || cmd.newQuantity == 0 then InvalidReplacement
    else if key !in st.directory || st.directory[key].instrumentId != cmd.instrumentId then UnknownOrderId
    else NoReason
  }

  /** The order a replace that passes its checks is about. */
  function ReplacedOrder(st: EngineState, cmd: Command): BookOrder
    requires cmd.ReplaceOrder? && Locates(st) && ReplaceVerdict(st, cmd) == NoReason
  {
    st.books[cmd.instrumentId].Find(st.directory[LiveKey(cmd.accountId, cmd.originalClientOrderId)].exchangeOrderId)
  }

  /** A replace at the resting price for at most what is left edits the order where it stands. */
  predicate PreservesPriority(st: EngineState, cmd: Command)
    requires cmd.ReplaceOrder? && Locates(st) && ReplaceVerdict(st, cmd) == NoReason
  {
    var prior := ReplacedOrder(st, cmd);
    cmd.newPrice == prior.price && cmd.newQuantity <= prior.remainingQuantity
  }

  function ReplaceInPlace(st: EngineState, cmd: Command): StepResult
    requires cmd.ReplaceOrder? && Locates(st) && ReplaceVerdict(st, cmd) == NoReason
  {
    var key := LiveKey(cmd.accountId, cmd.originalClientOrderId);
    var id := cmd.instrumentId;
    var prior := ReplacedOrder(st, cmd);
    var edited := prior.(remainingQuantity := cmd.newQuantity, clientOrderId := cmd.newClientOrderId);
    StepResult(
      st.(books := st.books[id := st.books[id].Replacing(prior.exchangeOrderId, edited)],
          directory := (st.directory - {key})[LiveKey(cmd.accountId, cmd.newClientOrderId) := st.directory[key]],
          nextEventSequence := st.nextEventSequence + 2),
      [OrderReplaced(st.nextEventSequence, cmd.commandSequence, cmd.accountId, cmd.originalClientOrderId,
                     cmd.newClientOrderId, prior.exchangeOrderId, id, cmd.newPrice, cmd.newQuantity),
       BookOrderReduced(st.nextEventSequence + 1, id, prior.exchangeOrderId, prior.side, prior.price, cmd.newQuantity)])
  }

  /** The state in which the re-entering order starts to match: old order and entry gone, two events out. */
  function AfterWithdrawal(st: EngineState, cmd: Command): EngineState
    requires cmd.ReplaceOrder? && Locates(st) && ReplaceVerdict(st, cmd) == NoReason
  {
    var id := cmd.instrumentId;
    st.(books := st.books[id := st.books[id].Without(ReplacedOrder(st, cmd).exchangeOrderId)],
        directory := st.directory - {LiveKey(cmd.accountId, cmd.originalClientOrderId)},
        nextExchangeOrderId := st.nextExchangeOrderId + 1,
        nextPriority := st.nextPriority + 1,
        nextEventSequence := st.nextEventSequence + 2)
  }

  function ReplacementOrder(st: EngineState, cmd: Command): RestingOrder
    requires cmd.ReplaceOrder? && Locates(st) && ReplaceVerdict(st, cmd) == NoReason
  {
    var prior := ReplacedOrder(st, cmd);
    RestingOrder(st.nextExchangeOrderId, cmd.newClientOrderId, cmd.accountId, cmd.newPrice, cmd.newQuantity,
                 cmd.newQuantity, st.nextPriority, cmd.instrumentId, prior.side, prior.timeInForce)
  }

  function ReplaceByReentry(st: EngineState, cmd: Command): StepResult
    requires cmd.ReplaceOrder? && Locates(st) && ReplaceVerdict(st, cmd) == NoReason
  {
    var prior := ReplacedOrder(st, cmd);
    var order := ReplacementOrder(st, cmd);
    var announced := [
      OrderReplaced(st.nextEventSequence, cmd.commandSequence, cmd.accountId, cmd.originalClientOrderId,
                    cmd.newClientOrderId, order.exchangeOrderId, cmd.instrumentId, cmd.newPrice, cmd.newQuantity),
      BookOrderRemoved(st.nextEventSequence + 1, cmd.instrumentId, prior.exchangeOrderId, prior.side, prior.price)];
    var r := MatchAndRest(AfterWithdrawal(st, cmd), order, cmd.commandSequence);
    StepResult(r.state, announced + r.events)
  }

  function ProcessReplace(st: EngineState, cmd: Command): StepResult
    requires cmd.ReplaceOrder? && Locates(st)
  {
    var verdict := ReplaceVerdict(st, cmd);
    if verdict != NoReason then RejectCommand(st, cmd, verdict)
    else if PreservesPriority(st, cmd) then ReplaceInPlace(st, cmd)
    else ReplaceByReentry(st, cmd)
  }

  function Process(st: EngineState, cmd: Command): StepResult
    requires Locates(st)
  {
    match cmd
    case NewOrder(_, _, _, _, _, _, _, _, _) => ProcessNewOrder(st, cmd)
    case CancelOrder(_, _, _, _) => ProcessCancel(st, cmd)
    case ReplaceOrder(_, _, _, _, _, _, _) => ProcessReplace(st, cmd)
  }

  // ---------- construction ----------

  const MAX_INSTRUMENT_ID: nat := 0x3F_FFFF

  const INITIAL_STATE := EngineState(map[], map[], 1, 1, 1)

  /** Registration adds an empty book, unless the id is too large or already known. */
  function Register(st: EngineState, id: InstrumentId): EngineState {
    if id > MAX_INSTRUMENT_ID || st.Knows(id) then st else st.(books := st.books[id := EMPTY_BOOK])
  }

  function RegisterAll(st: EngineState, universe: seq<InstrumentId>): EngineState
    decreases |universe|
  {
    if universe == [] then st else RegisterAll(Register(st, universe[0]), universe[1..])
  }
}
