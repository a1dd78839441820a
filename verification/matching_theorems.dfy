/** Theorems about one matching pass, one command and whole runs of the matching engine. */
module MatchingTheorems {
  import opened ExchangeTypes
  import opened MatchingModel
  import opened MatchingInvariants

  // ---------- looking an order up by its exchange id ----------

  lemma {:induction false} FindResting(st: EngineState, id: InstrumentId, o: BookOrder)
    requires BooksOk(st) && Rests(st, id, o)
    ensures st.books[id].Holds(o.exchangeOrderId)
    ensures st.books[id].SideHolding(o.exchangeOrderId) == o.side
    ensures st.books[id].Find(o.exchangeOrderId) == o
  {
    var book := st.books[id];
    var s := book.Orders(o.side);
    assert o in s;
    var i :| 0 <= i < |s| && s[i] == o;
    assert HasId(s, o.exchangeOrderId);
    var side := book.SideHolding(o.exchangeOrderId);
    var found := book.Orders(side)[IndexOf(book.Orders(side), o.exchangeOrderId)];
    assert Rests(st, id, found);
  }

  lemma SoundMeansLocates(st: EngineState)
    requires BooksOk(st) && DirectorySound(st)
    ensures Locates(st)
  {
    forall k | k in st.directory
      ensures st.directory[k].instrumentId in st.books
      ensures st.books[st.directory[k].instrumentId].Holds(st.directory[k].exchangeOrderId)
    {
      var o := EntryOrder(st, k);
    }
  }

  lemma EntryOrder(st: EngineState, k: LiveKey) returns (o: BookOrder)
    requires BooksOk(st) && DirectorySound(st) && k in st.directory
    ensures Rests(st, st.directory[k].instrumentId, o)
    ensures o.exchangeOrderId == st.directory[k].exchangeOrderId && o.Key() == k
    ensures st.books[st.directory[k].instrumentId].Holds(o.exchangeOrderId)
    ensures st.books[st.directory[k].instrumentId].SideHolding(o.exchangeOrderId) == o.side
    ensures st.books[st.directory[k].instrumentId].Find(o.exchangeOrderId) == o
  {
    assert EntrySound(st, k, st.directory[k]);
    o :| IsEntryOf(st, k, st.directory[k], o);
    FindResting(st, st.directory[k].instrumentId, o);
  }

  // ---------- one fill ----------

  /** What both outcomes of a fill have in common: the front order of one book is removed or reduced. */
  lemma FillOnceRests(st: EngineState, incoming: RestingOrder, c: nat)
    requires BooksOk(st) && incoming.instrumentId in st.books && CanFill(st, incoming)
    ensures var r := FillOnce(st, incoming, c); var front := Contra(st, incoming)[0]; var id := incoming.instrumentId;
            && BooksOk(r.state)
            && (forall id', x :: Rests(r.state, id', x) <==>
                  (Rests(st, id', x) && !(id' == id && x == front))
                  || (id' == id && front.remainingQuantity > incoming.remainingQuantity
                      && x == front.(remainingQuantity := front.remainingQuantity - incoming.remainingQuantity)))
  {
    var r := FillOnce(st, incoming, c);
    var id := incoming.instrumentId;
    var side := incoming.side.Opposite();
    var contra := Contra(st, incoming);
    assert contra[0] in contra;
    if contra[0].remainingQuantity <= incoming.remainingQuantity {
      assert WithoutAt(contra, 0) == contra[1..];
      RemoveKeepsBooks(st, r.state, id, side, 0);
    } else {
      var reduced := contra[0].(remainingQuantity := contra[0].remainingQuantity - incoming.remainingQuantity);
      EditKeepsBooks(st, r.state, id, side, 0, reduced);
    }
  }

  lemma FillOnceKeepsSound(st: EngineState, incoming: RestingOrder, c: nat)
    requires BooksOk(st) && DirectorySound(st) && incoming.instrumentId in st.books && CanFill(st, incoming)
    ensures DirectorySound(FillOnce(st, incoming, c).state)
  {
    var r := FillOnce(st, incoming, c);
    var front := Contra(st, incoming)[0];
    FillOnceRests(st, incoming, c);
    forall k | k in r.state.directory
      ensures EntrySound(r.state, k, r.state.directory[k])
    {
      var o := EntryOrder(st, k);
      if o == front && st.directory[k].instrumentId == incoming.instrumentId {
        var reduced := front.(remainingQuantity := front.remainingQuantity - incoming.remainingQuantity);
        assert IsEntryOf(r.state, k, r.state.directory[k], reduced);
      } else {
        assert IsEntryOf(r.state, k, r.state.directory[k], o);
      }
    }
  }

  lemma FillOnceKeepsComplete(st: EngineState, incoming: RestingOrder, c: nat)
    requires BooksOk(st) && DirectoryComplete(st) && incoming.instrumentId in st.books && CanFill(st, incoming)
    ensures DirectoryComplete(FillOnce(st, incoming, c).state)
  {
    var r := FillOnce(st, incoming, c);
    var front := Contra(st, incoming)[0];
    FillOnceRests(st, incoming, c);
    assert front in Contra(st, incoming);
    assert Rests(st, incoming.instrumentId, front);
    forall id, o | Rests(r.state, id, o)
      ensures o.Key() in r.state.directory
      ensures r.state.directory[o.Key()].exchangeOrderId == o.exchangeOrderId
      ensures r.state.directory[o.Key()].instrumentId == id
    {
      if Rests(st, id, o) {
        assert o.Key() in st.directory && st.directory[o.Key()].exchangeOrderId == o.exchangeOrderId;
        assert o.Key() == front.Key() ==> o == front;
      }
    }
  }

  lemma FillOnceKeepsUncrossed(st: EngineState, incoming: RestingOrder, c: nat)
    requires BooksOk(st) && Uncrossed(st) && incoming.instrumentId in st.books && CanFill(st, incoming)
    ensures Uncrossed(FillOnce(st, incoming, c).state)
  {
    var r := FillOnce(st, incoming, c);
    var contra, contra' := Contra(st, incoming), Contra(r.state, incoming);
    if contra' != [] {
      assert !Better(incoming.side.Opposite(), contra'[0].price, contra[0].price);
    }
  }

  lemma FillOnceKeeps(st: EngineState, incoming: RestingOrder, c: nat)
    requires WellFormed(st) && incoming.instrumentId in st.books && CanFill(st, incoming)
    ensures WellFormed(FillOnce(st, incoming, c).state)
    ensures DirectoryComplete(st) ==> DirectoryComplete(FillOnce(st, incoming, c).state)
  {
    FillOnceRests(st, incoming, c);
    FillOnceKeepsSound(st, incoming, c);
    FillOnceKeepsUncrossed(st, incoming, c);
    if DirectoryComplete(st) {
      FillOnceKeepsComplete(st, incoming, c);
    }
  }

  // ---------- a whole matching pass ----------

  lemma {:induction false} MatchKeeps(st: EngineState, incoming: RestingOrder, c: nat)
    requires WellFormed(st) && incoming.instrumentId in st.books
    ensures WellFormed(MatchLoop(st, incoming, c).state)
    ensures DirectoryComplete(st) ==> DirectoryComplete(MatchLoop(st, incoming, c).state)
    decreases |Contra(st, incoming)|, incoming.remainingQuantity
  {
    if CanFill(st, incoming) {
      FillOnceKeeps(st, incoming, c);
      var one := FillOnce(st, incoming, c);
      MatchKeeps(one.state, one.incoming, c);
    }
  }

  /** What a pass leaves as it was, and why it stopped. */
  lemma {:induction false} MatchFrame(st: EngineState, incoming: RestingOrder, c: nat)
    requires incoming.instrumentId in st.books
    ensures var r := MatchLoop(st, incoming, c);
            && !CanFill(r.state, r.incoming)
            && r.state.nextExchangeOrderId == st.nextExchangeOrderId
            && r.state.nextPriority == st.nextPriority
            && r.state.books.Keys == st.books.Keys
            && r.state.directory.Keys <= st.directory.Keys
            && r.state.nextEventSequence == st.nextEventSequence + |r.events|
            && r.state.books[incoming.instrumentId].Orders(incoming.side)
                 == st.books[incoming.instrumentId].Orders(incoming.side)
    decreases |Contra(st, incoming)|, incoming.remainingQuantity
  {
    if CanFill(st, incoming) {
      var one := FillOnce(st, incoming, c);
      MatchFrame(one.state, one.incoming, c);
    }
  }

  /** A resting order the incoming one would trade with. */
  ghost predicate Reachable(incoming: RestingOrder, id: InstrumentId, x: BookOrder) {
    id == incoming.instrumentId && x.side == incoming.side.Opposite() && Crosses(incoming.side, incoming.price, x.price)
  }

  lemma NoneReachable(st: EngineState, incoming: RestingOrder, x: BookOrder)
    requires BooksOk(st) && incoming.instrumentId in st.books
    requires incoming.remainingQuantity > 0 && !CanFill(st, incoming)
    requires Reachable(incoming, incoming.instrumentId, x)
    ensures !Rests(st, incoming.instrumentId, x)
  {
    var contra := Contra(st, incoming);
    assert forall i :: 0 <= i < |contra| ==> !Crosses(incoming.side, incoming.price, contra[i].price);
  }

  /** A pass leaves every order out of reach alone and, if anything of the incoming order is left, has
      consumed every order within reach. */
  lemma {:induction false} MatchRests(st: EngineState, incoming: RestingOrder, c: nat)
    requires BooksOk(st) && incoming.instrumentId in st.books
    ensures var r := MatchLoop(st, incoming, c);
            && BooksOk(r.state)
            && (forall id, x :: !Reachable(incoming, id, x) ==> (Rests(r.state, id, x) <==> Rests(st, id, x)))
            && (r.incoming.remainingQuantity > 0 ==>
                  forall id, x :: Reachable(incoming, id, x) ==> !Rests(r.state, id, x))
    decreases |Contra(st, incoming)|, incoming.remainingQuantity
  {
    if CanFill(st, incoming) {
      var front := Contra(st, incoming)[0];
      assert front in Contra(st, incoming);
      FillOnceRests(st, incoming, c);
      var one := FillOnce(st, incoming, c);
      MatchRests(one.state, one.incoming, c);
      forall id, x | !Reachable(incoming, id, x)
        ensures Rests(one.state, id, x) <==> Rests(st, id, x)
      {
        assert Reachable(incoming, incoming.instrumentId, front);
      }
      assert forall id, x :: Reachable(one.incoming, id, x) == Reachable(incoming, id, x);
    } else if incoming.remainingQuantity > 0 {
      forall id, x | Reachable(incoming, id, x) ensures !Rests(st, id, x) {
        NoneReachable(st, incoming, x);
      }
    }
  }

  // ---------- greedy consumption ----------

  function TotalQuantity(s: seq<BookOrder>): nat {
    if s == [] then 0 else s[0].remainingQuantity + TotalQuantity(s[1..])
  }

  /** Everything on a side that an order at this limit could trade with, wherever it sits in the queue. */
  function CrossableTotal(s: seq<BookOrder>, side: Side, limit: Price): nat {
    if s == [] then 0
    else (if Crosses(side, limit, s[0].price) then s[0].remainingQuantity else 0) + CrossableTotal(s[1..], side, limit)
  }

  function TradesOf(events: seq<Event>): seq<Event> {
    if events == [] then []
    else (if events[0].TradeExecuted? then [events[0]] else []) + TradesOf(events[1..])
  }

  function Aggressor(t: Event): Counterparty
    requires t.TradeExecuted?
  {
    if t.aggressorSide.Buy? then t.buyer else t.seller
  }

  function Passive(t: Event): Counterparty
    requires t.TradeExecuted?
  {
    if t.aggressorSide.Buy? then t.seller else t.buyer
  }

  /** `t` fills `quantity` of resting order o at o's own price, leaving `left` of the incoming order. */
  ghost predicate IsFill(t: Event, incoming: RestingOrder, c: nat, o: BookOrder, quantity: int, left: int) {
    && t.TradeExecuted?
    && t.commandSequence == c && t.instrumentId == incoming.instrumentId && t.aggressorSide == incoming.side
    && t.price == o.price && t.quantity == quantity
    && 0 <= quantity <= o.remainingQuantity && 0 <= left
    && Passive(t) == Counterparty(o.accountId, o.clientOrderId, o.exchangeOrderId, o.remainingQuantity - quantity)
    && Aggressor(t) == Counterparty(incoming.accountId, incoming.clientOrderId, incoming.exchangeOrderId, left)
  }

  lemma {:induction false} NoneCrossable(s: seq<BookOrder>, side: Side, limit: Price)
    requires forall i :: 0 <= i < |s| ==> !Crosses(side, limit, s[i].price)
    ensures CrossableTotal(s, side, limit) == 0
  {
    if s != [] {
      NoneCrossable(s[1..], side, limit);
    }
  }

  lemma SideTail(side: Side, s: seq<BookOrder>)
    requires SideOk(side, s) && s != []
    ensures SideOk(side, s[1..])
    ensures s[0].side == side && s[0].remainingQuantity > 0
  {
    assert s[0] in s;
  }

  lemma TradesOfConcat(a: seq<Event>, b: seq<Event>)
    ensures TradesOf(a + b) == TradesOf(a) + TradesOf(b)
  {
    if a == [] {
      assert a + b == b;
    } else {
      assert (a + b)[1..] == a[1..] + b;
    }
  }

  /** The trades t took the first k orders of s whole, in queue order, and at most one more in part; each
      trade is at the resting order's price and within the limit; s' is what is left of s; and what traded
      is all that was wanted or all that could cross. */
  ghost predicate GreedyOutcome(s: seq<BookOrder>, s': seq<BookOrder>, t: seq<Event>, k: nat,
                                incoming: RestingOrder, left: nat, c: nat)
  {
    && k <= |s| && k <= |t| <= k + 1 && |t| <= |s|
    && (forall i :: 0 <= i < |t| ==> Crosses(incoming.side, incoming.price, s[i].price))
    && (forall i :: 0 <= i < k ==>
          IsFill(t[i], incoming, c, s[i], s[i].remainingQuantity,
                 incoming.remainingQuantity - TotalQuantity(s[..i + 1])))
    && (|t| == k ==> s' == s[k..])
    && (|t| == k + 1 ==>
          && left == 0
          && s' != [] && 0 < s'[0].remainingQuantity < s[k].remainingQuantity
          && s' == s[k..][0 := s[k].(remainingQuantity := s'[0].remainingQuantity)]
          && IsFill(t[k], incoming, c, s[k], s[k].remainingQuantity - s'[0].remainingQuantity, 0))
    && incoming.remainingQuantity - left
         == Min(incoming.remainingQuantity, CrossableTotal(s, incoming.side, incoming.price))
         == TotalQuantity(s) - TotalQuantity(s')
  }

  /** Taking the front order whole and going on greedily is greedy. */
  lemma GreedyCons(s: seq<BookOrder>, s': seq<BookOrder>, t: Event, t': seq<Event>, k: nat,
                   incoming: RestingOrder, left: nat, c: nat)
    requires s != [] && Crosses(incoming.side, incoming.price, s[0].price)
    requires s[0].remainingQuantity <= incoming.remainingQuantity
    requires var rest := incoming.(remainingQuantity := incoming.remainingQuantity - s[0].remainingQuantity);
             && GreedyOutcome(s[1..], s', t', k, rest, left, c)
             && IsFill(t, incoming, c, s[0], s[0].remainingQuantity, rest.remainingQuantity)
    ensures GreedyOutcome(s, s', [t] + t', k + 1, incoming, left, c)
  {
    var ts := [t] + t';
    assert s[1..][k..] == s[k + 1..];
    forall i | 0 <= i < k + 1
      ensures IsFill(ts[i], incoming, c, s[i], s[i].remainingQuantity,
                     incoming.remainingQuantity - TotalQuantity(s[..i + 1]))
    {
      assert s[..i + 1][1..] == s[1..][..i];
      if i > 0 {
        assert ts[i] == t'[i - 1];
      }
    }
  }

  /** An incoming order smaller than the front order takes part of it and is done. */
  lemma GreedyPartial(s: seq<BookOrder>, t: Event, incoming: RestingOrder, c: nat)
    requires s != [] && Crosses(incoming.side, incoming.price, s[0].price)
    requires 0 < incoming.remainingQuantity < s[0].remainingQuantity
    requires IsFill(t, incoming, c, s[0], incoming.remainingQuantity, 0)
    ensures var reduced := s[0].(remainingQuantity := s[0].remainingQuantity - incoming.remainingQuantity);
            GreedyOutcome(s, s[0 := reduced], [t], 0, incoming, 0, c)
  {
    var reduced := s[0].(remainingQuantity := s[0].remainingQuantity - incoming.remainingQuantity);
    assert s[0 := reduced][1..] == s[1..];
  }

  lemma GreedyStop(st: EngineState, incoming: RestingOrder, c: nat)
    requires BooksOk(st) && incoming.instrumentId in st.books && !CanFill(st, incoming)
    ensures GreedyOutcome(Contra(st, incoming), Contra(st, incoming), [], 0, incoming, incoming.remainingQuantity, c)
  {
    if incoming.remainingQuantity > 0 {
      NoneCrossable(Contra(st, incoming), incoming.side, incoming.price);
    }
  }

  /** One matching pass consumes the contra side greedily. */
  lemma {:induction false} MatchIsGreedy(st: EngineState, incoming: RestingOrder, c: nat) returns (k: nat)
    requires BooksOk(st) && incoming.instrumentId in st.books
    ensures var r := MatchLoop(st, incoming, c);
            GreedyOutcome(Contra(st, incoming), Contra(r.state, incoming), TradesOf(r.events), k, incoming,
                          r.incoming.remainingQuantity, c)
    decreases |Contra(st, incoming)|, incoming.remainingQuantity
  {
    hide GreedyOutcome, IsFill, BooksOk, TradesOf, FillOnce, SideOk;
    if !CanFill(st, incoming) {
      k := 0;
      GreedyStop(st, incoming, c);
      assert TradesOf([]) == [] by {
        NoTrades();
      }
      return;
    }
    var s := Contra(st, incoming);
    SideTail(incoming.side.Opposite(), s) by {
      ContraOk(st, incoming);
    }
    FillOnceRests(st, incoming, c);
    FillOnceTrades(st, incoming, c);
    var one := FillOnce(st, incoming, c);
    k := MatchIsGreedy(one.state, one.incoming, c);
    var rest := MatchLoop(one.state, one.incoming, c);
    var t, t' := one.events[0], TradesOf(rest.events);
    TradesOfConcat(one.events, rest.events);
    if s[0].remainingQuantity <= incoming.remainingQuantity {
      GreedyCons(s, Contra(rest.state, incoming), t, t', k, incoming, rest.incoming.remainingQuantity, c);
      k := k + 1;
    } else {
      NoTrades();
      assert one.incoming.remainingQuantity == 0;
      assert rest.events == [] && rest.state == one.state && [t] + t' == [t];
      GreedyPartial(s, t, incoming, c);
      k := 0;
    }
  }

  lemma NoTrades()
    ensures TradesOf([]) == []
  {
  }

  lemma ContraOk(st: EngineState, incoming: RestingOrder)
    requires BooksOk(st) && incoming.instrumentId in st.books
    ensures SideOk(incoming.side.Opposite(), Contra(st, incoming))
  {
  }

  /** One fill is one trade, with the front order, of as much as both sides allow. */
  lemma FillOnceTrades(st: EngineState, incoming: RestingOrder, c: nat)
    requires incoming.instrumentId in st.books && CanFill(st, incoming)
    ensures var one := FillOnce(st, incoming, c); var front := Contra(st, incoming)[0];
            var quantity := Min(incoming.remainingQuantity, front.remainingQuantity);
            && one.incoming == incoming.(remainingQuantity := incoming.remainingQuantity - quantity)
            && one.events != [] && TradesOf(one.events) == [one.events[0]]
            && IsFill(one.events[0], incoming, c, front, quantity, one.incoming.remainingQuantity)
            && Contra(one.state, one.incoming)
                 == (if front.remainingQuantity <= incoming.remainingQuantity then Contra(st, incoming)[1..]
                     else Contra(st, incoming)[0 := front.(remainingQuantity := front.remainingQuantity - quantity)])
  {
    var events := FillOnce(st, incoming, c).events;
    assert TradesOf(events[1..]) == [] by {
      assert events[1..][1..] == [];
    }
  }

  // ---------- fill-or-kill ----------

  /** The pre-check's early exit changes nothing that matters: it reports enough exactly when there is
      enough, and otherwise reports precisely what there is. */
  lemma {:induction false} CrossableQuantityExact(s: seq<BookOrder>, side: Side, limit: Price, quantity: Quantity)
    requires SideOk(side.Opposite(), s)
    ensures var found, total := CrossableQuantity(s, side, limit, quantity), CrossableTotal(s, side, limit);
            found <= total && (found >= quantity <==> total >= quantity) && (found < quantity ==> found == total)
  {
    if s == [] || !Crosses(side, limit, s[0].price) {
      NoneCrossable(s, side, limit);
    } else {
      SideTail(side.Opposite(), s);
      if s[0].remainingQuantity < quantity {
        CrossableQuantityExact(s[1..], side, limit, quantity - s[0].remainingQuantity);
      }
    }
  }

  /** A fill-or-kill order that is otherwise valid is accepted exactly when the book covers it; refused, it
      changes no book and no entry. */
  lemma FillOrKillVerdict(st: EngineState, cmd: Command)
    requires BooksOk(st) && cmd.NewOrder? && cmd.timeInForce == FOK
    requires st.Knows(cmd.instrumentId) && cmd.price > 0 && cmd.quantity > 0
    requires LiveKey(cmd.accountId, cmd.clientOrderId) !in st.directory
    ensures var r := ProcessNewOrder(st, cmd);
            var contra := st.books[cmd.instrumentId].Orders(cmd.side.Opposite());
            if CrossableTotal(contra, cmd.side, cmd.price) >= cmd.quantity
            then r.events != [] && r.events[0].OrderAccepted?
            else r.state.books == st.books && r.state.directory == st.directory && |r.events| == 1
                 && r.events[0].OrderRejected? && r.events[0].reason == InsufficientLiquidity
  {
    var contra := st.books[cmd.instrumentId].Orders(cmd.side.Opposite());
    CrossableQuantityExact(contra, cmd.side, cmd.price, cmd.quantity);
  }

  lemma AcceptanceKeeps(st: EngineState)
    requires BooksOk(st)
    ensures BooksOk(AfterAcceptance(st))
    ensures forall id, o :: Rests(AfterAcceptance(st), id, o) <==> Rests(st, id, o)
  {
    forall id, o | Rests(AfterAcceptance(st), id, o) ensures Rests(st, id, o) {}
  }

  /** A pass whose contra side covers the incoming order fills it. */
  lemma CoveredIsFilled(st: EngineState, incoming: RestingOrder, c: nat)
    requires BooksOk(st) && incoming.instrumentId in st.books
    requires CrossableTotal(Contra(st, incoming), incoming.side, incoming.price) >= incoming.remainingQuantity
    ensures var r := MatchLoop(st, incoming, c);
            && r.incoming.remainingQuantity == 0
            && TotalQuantity(Contra(st, incoming)) - TotalQuantity(Contra(r.state, incoming))
                 == incoming.remainingQuantity
  {
    var k := MatchIsGreedy(st, incoming, c);
  }

  /** An accepted fill-or-kill order trades its whole quantity and leaves nothing of itself resting. */
  lemma FillOrKillFills(st: EngineState, cmd: Command)
    requires BooksOk(st) && cmd.NewOrder? && cmd.timeInForce == FOK
    requires NewOrderVerdict(st, cmd) == NoReason
    ensures var r := ProcessNewOrder(st, cmd);
            && cmd.instrumentId in r.state.books
            && (var book, book' := st.books[cmd.instrumentId], r.state.books[cmd.instrumentId];
                && TotalQuantity(book.Orders(cmd.side.Opposite())) - TotalQuantity(book'.Orders(cmd.side.Opposite()))
                     == cmd.quantity
                && book'.Orders(cmd.side) == book.Orders(cmd.side)
                && r.state.directory.Keys <= st.directory.Keys)
  {
    var contra := st.books[cmd.instrumentId].Orders(cmd.side.Opposite());
    CrossableQuantityExact(contra, cmd.side, cmd.price, cmd.quantity);
    var start, order := AfterAcceptance(st), AcceptedOrder(st, cmd);
    AcceptanceKeeps(st);
    CoveredIsFilled(start, order, cmd.commandSequence);
    MatchFrame(start, order, cmd.commandSequence);
    assert ProcessNewOrder(st, cmd).state == MatchLoop(start, order, cmd.commandSequence).state;
  }
}
