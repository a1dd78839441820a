/** What the public feed says of trades: a message for every trade and for nothing else, as the trade was. */
module TradePrints {
  import opened ExchangeTypes
  import opened MatchingModel
  import opened MatchingInvariants
  import opened MatchingTheorems
  import opened AdmissionTheorems
  import opened FeedModel

  /** The trade prints among the messages. */
  function Prints(messages: seq<FeedMessage>): seq<FeedMessage> {
    if messages == [] then []
    else (if messages[0].Trade? then [messages[0]] else []) + Prints(messages[1..])
  }

  predicate Tells(m: FeedMessage, trade: Event) {
    && m.Trade? && trade.TradeExecuted?
    && m.instrumentId == trade.instrumentId
    && m.price == trade.price
    && m.quantity == trade.quantity
    && m.aggressorSide == trade.aggressorSide
  }

  predicate AllTell(prints: seq<FeedMessage>, trades: seq<Event>) {
    |prints| == |trades| && forall i :: 0 <= i < |prints| ==> Tells(prints[i], trades[i])
  }

  /** The prints of a feed are, one for one and in order, the trades among the events. */
  lemma {:induction false} PrintsAreTheTrades(events: seq<Event>, n: nat, clock: nat -> nat)
    ensures AllTell(Prints(Feed(events, n, clock)), TradesOf(events))
  {
    if events != [] {
      var rest := Feed(events[1..], n, clock);
      PrintsAreTheTrades(events[1..], n, clock);
      PrintsAreTheTrades(events[1..], n + 1, clock);
      var all := Feed(events, n, clock);
      assert all != rest ==> all[1..] == Feed(events[1..], n + 1, clock);
    }
  }

  function PrintedQuantity(prints: seq<FeedMessage>): nat {
    if prints == [] then 0 else (if prints[0].Trade? then prints[0].quantity else 0) + PrintedQuantity(prints[1..])
  }

  /** The prints show the orders of `contra` taken from the front, each at its own price, by an aggressor of this
      side; all but the last show the whole of an order, and together they show `quantity`. */
  predicate Shows(prints: seq<FeedMessage>, contra: seq<BookOrder>, id: InstrumentId, side: Side, quantity: nat) {
    && |prints| <= |contra|
    && (forall i :: 0 <= i < |prints| ==> ShowsFill(prints[i], contra[i], id, side))
    && (forall i :: 0 <= i < |prints| - 1 ==> prints[i].quantity == contra[i].remainingQuantity)
    && PrintedQuantity(prints) == quantity
  }

  predicate ShowsFill(m: FeedMessage, o: BookOrder, id: InstrumentId, side: Side) {
    && m.Trade?
    && m.instrumentId == id
    && m.price == o.price
    && m.aggressorSide == side
    && m.quantity <= o.remainingQuantity
  }

  // ---------- sums ----------

  lemma {:induction false} TotalOfParts(a: seq<BookOrder>, b: seq<BookOrder>)
    ensures TotalQuantity(a + b) == TotalQuantity(a) + TotalQuantity(b)
  {
    if a == [] {
      assert a + b == b;
    } else {
      assert (a + b)[1..] == a[1..] + b;
      TotalOfParts(a[1..], b);
    }
  }

  /** Prints that show whole orders add up to those orders. */
  lemma {:induction false} WholePrints(prints: seq<FeedMessage>, s: seq<BookOrder>)
    requires |prints| == |s|
    requires forall i :: 0 <= i < |s| ==> prints[i].Trade? && prints[i].quantity == s[i].remainingQuantity
    ensures PrintedQuantity(prints) == TotalQuantity(s)
  {
    if s != [] {
      WholePrints(prints[1..], s[1..]);
    }
  }

  lemma {:induction false} PrintedOneMore(prints: seq<FeedMessage>, last: FeedMessage)
    requires last.Trade?
    ensures PrintedQuantity(prints + [last]) == PrintedQuantity(prints) + last.quantity
  {
    if prints == [] {
      assert prints + [last] == [last];
    } else {
      assert (prints + [last])[1..] == prints[1..] + [last];
      PrintedOneMore(prints[1..], last);
    }
  }

  // ---------- greedy trades, as printed ----------

  /** What a greedy pass trades is what its prints show. */
  lemma GreedyShows(s: seq<BookOrder>, s': seq<BookOrder>, t: seq<Event>, k: nat, order: RestingOrder, left: nat,
                    c: nat, prints: seq<FeedMessage>)
    requires GreedyOutcome(s, s', t, k, order, left, c) && AllTell(prints, t)
    ensures left <= order.remainingQuantity
    ensures Shows(prints, s, order.instrumentId, order.side, order.remainingQuantity - left)
  {
    WholePrints(prints[..k], s[..k]);
    TotalOfParts(s[..k], s[k..]);
    assert s == s[..k] + s[k..];
    if |t| == k {
      assert prints[..k] == prints;
    } else {
      assert prints == prints[..k] + [prints[k]];
      PrintedOneMore(prints[..k], prints[k]);
      assert s'[1..] == s[k..][1..];
    }
  }

  /** The prints of one matching pass show the resting orders it took, at their prices, and all it filled. */
  lemma PassShows(st: EngineState, incoming: RestingOrder, c: nat, n: nat, clock: nat -> nat)
    requires BooksOk(st) && incoming.instrumentId in st.books
    ensures var m := MatchLoop(st, incoming, c);
            && m.incoming.remainingQuantity <= incoming.remainingQuantity
            && Shows(Prints(Feed(m.events, n, clock)), Contra(st, incoming), incoming.instrumentId, incoming.side,
                     incoming.remainingQuantity - m.incoming.remainingQuantity)
  {
    hide GreedyOutcome, MatchLoop, BooksOk, Shows, AllTell, Prints, Feed, TradesOf;
    var m := MatchLoop(st, incoming, c);
    var k := MatchIsGreedy(st, incoming, c);
    PrintsAreTheTrades(m.events, n, clock);
    GreedyShows(Contra(st, incoming), Contra(m.state, incoming), TradesOf(m.events), k, incoming,
                m.incoming.remainingQuantity, c, Prints(Feed(m.events, n, clock)));
  }

  lemma EnteredShows(own: seq<BookOrder>, contra: seq<BookOrder>, st': EngineState, events: seq<Event>,
                     order: RestingOrder, c: nat, n: nat, clock: nat -> nat)
    requires Entered(own, contra, st', events, order, c)
    ensures Shows(Prints(Feed(events, n, clock)), contra, order.instrumentId, order.side,
                  Min(order.remainingQuantity, CrossableTotal(contra, order.side, order.price)))
  {
    hide GreedyOutcome, Shows, AllTell, Prints, Feed, TradesOf, Settles, CrossableTotal;
    var contra' := st'.books[order.instrumentId].Orders(order.side.Opposite());
    var k: nat :| GreedyOutcome(contra, contra', TradesOf(events), k, order, Left(contra, order), c);
    PrintsAreTheTrades(events, n, clock);
    GreedyShows(contra, contra', TradesOf(events), k, order, Left(contra, order), c, Prints(Feed(events, n, clock)));
  }

  /** An accepted order's prints show, in order, the resting orders it took and how much it traded in all. */
  lemma NewOrderShows(st: EngineState, cmd: Command, n: nat, clock: nat -> nat)
    requires WellFormed(st) && cmd.NewOrder? && Acceptable(st, cmd)
    ensures Shows(Prints(Feed(ProcessNewOrder(st, cmd).events, n, clock)),
                  st.books[cmd.instrumentId].Orders(cmd.side.Opposite()), cmd.instrumentId, cmd.side,
                  Min(cmd.quantity, Reach(st, cmd.instrumentId, cmd.side, cmd.price)))
  {
    hide WellFormed, Entered, ProcessNewOrder, Shows, Prints, Feed, CrossableTotal;
    AcceptedOrderEnters(st, cmd);
    var book, r := st.books[cmd.instrumentId], ProcessNewOrder(st, cmd);
    var order := Issued(st, LiveKey(cmd.accountId, cmd.clientOrderId), cmd.instrumentId, cmd.side, cmd.price,
                        cmd.quantity, cmd.timeInForce);
    EnteredShows(book.Orders(cmd.side), book.Orders(cmd.side.Opposite()), r.state, r.events, order,
                 cmd.commandSequence, n, clock);
  }

  /** So do the prints of a replace that gives up its place. */
  lemma ReplaceShows(st: EngineState, cmd: Command, o: BookOrder, n: nat, clock: nat -> nat)
    requires WellFormed(st) && cmd.ReplaceOrder? && Names(st, cmd, o) && cmd.newPrice > 0 && cmd.newQuantity > 0
    requires cmd.newPrice != o.price || cmd.newQuantity > o.remainingQuantity
    ensures Locates(st) && cmd.instrumentId in st.books
    ensures Shows(Prints(Feed(ProcessReplace(st, cmd).events, n, clock)),
                  st.books[cmd.instrumentId].Orders(o.side.Opposite()), cmd.instrumentId, o.side,
                  Min(cmd.newQuantity, Reach(st, cmd.instrumentId, o.side, cmd.newPrice)))
  {
    hide WellFormed, Entered, ProcessReplace, Shows, Prints, Feed, CrossableTotal, LeftOut, Names, Locates;
    ReplaceEntersAnew(st, cmd, o);
    var book, r := st.books[cmd.instrumentId], ProcessReplace(st, cmd);
    var order := Issued(st, LiveKey(cmd.accountId, cmd.newClientOrderId), cmd.instrumentId, o.side, cmd.newPrice,
                        cmd.newQuantity, GTC);
    var contra := book.Orders(o.side.Opposite());
    var kept :| LeftOut(book.Orders(o.side), kept, o)
                && Entered(kept, contra, r.state, r.events, order, cmd.commandSequence);
    EnteredShows(kept, contra, r.state, r.events, order, cmd.commandSequence, n, clock);
  }
}
