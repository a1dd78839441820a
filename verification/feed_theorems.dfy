/** A subscriber that applies the published feed never meets an error, and after every command holds the same
    orders, by id, side, price and quantity, as the exchange. */
module FeedTheorems {
  import opened ExchangeTypes
  import opened MatchingModel
  import opened MatchingInvariants
  import opened MatchingTheorems
  import opened CommandTheorems
  import opened FeedModel

  ghost predicate OrderRests(st: EngineState, id: InstrumentId, x: ExchangeOrderId) {
    exists o :: Rests(st, id, o) && o.exchangeOrderId == x
  }

  /** Every resting order is known to the subscriber as it is, and nothing else is. */
  ghost predicate Mirrors(st: EngineState, depths: Depths) {
    && (forall id, o :: Rests(st, id, o) ==> Known(depths, id, o))
    && (forall id, x :: x in DepthOf(depths, id) ==> OrderRests(st, id, x))
  }

  predicate Known(depths: Depths, id: InstrumentId, o: BookOrder) {
    o.exchangeOrderId in DepthOf(depths, id) && DepthOf(depths, id)[o.exchangeOrderId] == QuoteOf(o)
  }

  /** The subscriber keeps up with a step of the engine: every message lands, and the mirror holds again. */
  ghost predicate KeepsUp(depths: Depths, events: seq<Event>, n: nat, clock: nat -> nat, st': EngineState) {
    var (depths', refused) := Followed(depths, Feed(events, n, clock));
    refused == 0 && Mirrors(st', depths')
  }

  lemma {:induction false} FeedConcat(a: seq<Event>, b: seq<Event>, n: nat, clock: nat -> nat)
    ensures Feed(a + b, n, clock) == Feed(a, n, clock) + Feed(b, n + |Feed(a, n, clock)|, clock)
  {
    if a == [] {
      assert a + b == b;
    } else {
      assert (a + b)[1..] == a[1..] + b;
      var message := Translate(a[0], n, clock(n));
      FeedConcat(a[1..], b, if message.None? then n else n + 1, clock);
      if message.Some? {
        assert [message.value] + (Feed(a[1..], n + 1, clock) + Feed(b, n + 1 + |Feed(a[1..], n + 1, clock)|, clock))
          == [message.value] + Feed(a[1..], n + 1, clock) + Feed(b, n + 1 + |Feed(a[1..], n + 1, clock)|, clock);
      }
    }
  }

  lemma {:induction false} FollowedConcat(depths: Depths, a: seq<FeedMessage>, b: seq<FeedMessage>)
    ensures var first := Followed(depths, a); var second := Followed(first.0, b);
            Followed(depths, a + b) == (second.0, first.1 + second.1)
    decreases |a|
  {
    if a == [] {
      assert a + b == b;
    } else {
      assert (a + b)[1..] == a[1..] + b;
      var r := AppliedTo(DepthOf(depths, a[0].instrumentId), a[0]);
      FollowedConcat(depths[a[0].instrumentId := r.depth], a[1..], b);
    }
  }

  lemma FeedOne(ev: Event, n: nat, clock: nat -> nat)
    ensures Feed([ev], n, clock)
              == if Translate(ev, n, clock(n)).None? then [] else [Translate(ev, n, clock(n)).value]
  {
    hide Translate;
    assert [ev][1..] == [];
    assert Feed([ev][1..], n, clock) == [] && Feed([ev][1..], n + 1, clock) == [];
  }

  /** Two steps in a row. */
  lemma KeepsUpThen(depths: Depths, a: seq<Event>, b: seq<Event>, n: nat, clock: nat -> nat, st1: EngineState,
                    st2: EngineState)
    requires KeepsUp(depths, a, n, clock, st1)
    requires forall depths' :: Mirrors(st1, depths') ==> KeepsUp(depths', b, n + |Feed(a, n, clock)|, clock, st2)
    ensures KeepsUp(depths, a + b, n, clock, st2)
  {
    hide Mirrors, Feed, Followed;
    FeedConcat(a, b, n, clock);
    FollowedConcat(depths, Feed(a, n, clock), Feed(b, n + |Feed(a, n, clock)|, clock));
  }

  // ---------- the three book changes ----------

  lemma OneMessage(depths: Depths, message: FeedMessage)
    ensures var r := AppliedTo(DepthOf(depths, message.instrumentId), message);
            Followed(depths, [message])
              == (depths[message.instrumentId := r.depth], if r.error.Some? then 1 else 0)
  {
    hide AppliedTo;
    assert [message][1..] == [];
  }

  /** The engine rested one more order, under an exchange id of its own. */
  lemma MirrorsAdd(st: EngineState, st': EngineState, depths: Depths, id: InstrumentId, o: BookOrder, n: nat, t: nat)
    requires BooksOk(st) && Mirrors(st, depths)
    requires o.price > 0 && o.remainingQuantity > 0
    requires forall id', x :: Rests(st, id', x) ==> x.exchangeOrderId != o.exchangeOrderId
    requires forall id', x :: Rests(st', id', x) <==> Rests(st, id', x) || (id' == id && x == o)
    ensures var r := Followed(depths, [AddOrder(n, t, o.exchangeOrderId, id, o.price, o.remainingQuantity, o.side)]);
            r.1 == 0 && Mirrors(st', r.0)
  {
    hide BooksOk, Rests, Followed;
    OneMessage(depths, AddOrder(n, t, o.exchangeOrderId, id, o.price, o.remainingQuantity, o.side));
    var depths' := depths[id := DepthOf(depths, id)[o.exchangeOrderId := QuoteOf(o)]];
    assert o.exchangeOrderId !in DepthOf(depths, id);
    forall id', x | x in DepthOf(depths', id') ensures OrderRests(st', id', x) {
      if id' == id && x == o.exchangeOrderId {
        assert Rests(st', id, o);
      } else {
        assert OrderRests(st, id', x);
      }
    }
  }

  lemma MirrorsRemove(st: EngineState, st': EngineState, depths: Depths, id: InstrumentId, o: BookOrder, n: nat, t: nat)
    requires BooksOk(st) && Mirrors(st, depths) && Rests(st, id, o)
    requires forall id', x :: Rests(st', id', x) <==> Rests(st, id', x) && !(id' == id && x == o)
    ensures var r := Followed(depths, [DeleteOrder(n, t, o.exchangeOrderId, id)]);
            r.1 == 0 && Mirrors(st', r.0)
  {
    hide Rests, Followed, SideOk;
    OneMessage(depths, DeleteOrder(n, t, o.exchangeOrderId, id));
    assert Known(depths, id, o);
    var depths' := depths[id := DepthOf(depths, id) - {o.exchangeOrderId}];
    forall id', x | Rests(st', id', x) ensures Known(depths', id', x) {
      assert Known(depths, id', x);
    }
    forall id', x | x in DepthOf(depths', id') ensures OrderRests(st', id', x) {
      assert OrderRests(st, id', x);
      var y :| Rests(st, id', y) && y.exchangeOrderId == x;
      assert Rests(st', id', y);
    }
  }

  /** The engine changed an order in place, keeping its id, side and price. */
  lemma MirrorsEdit(st: EngineState, st': EngineState, depths: Depths, id: InstrumentId, o: BookOrder, o': BookOrder,
                    n: nat, t: nat)
    requires BooksOk(st) && Mirrors(st, depths) && Rests(st, id, o)
    requires o'.exchangeOrderId == o.exchangeOrderId && o'.side == o.side && o'.price == o.price > 0
    requires o'.remainingQuantity > 0
    requires forall id', x :: Rests(st', id', x) <==>
               (Rests(st, id', x) && !(id' == id && x == o)) || (id' == id && x == o')
    ensures var r := Followed(depths, [ModifyOrder(n, t, o.exchangeOrderId, id, o.price, o'.remainingQuantity)]);
            r.1 == 0 && Mirrors(st', r.0)
  {
    hide Rests, Followed, SideOk;
    OneMessage(depths, ModifyOrder(n, t, o.exchangeOrderId, id, o.price, o'.remainingQuantity));
    assert Known(depths, id, o);
    var depths' := depths[id := DepthOf(depths, id)[o.exchangeOrderId := QuoteOf(o')]];
    forall id', x | Rests(st', id', x) ensures Known(depths', id', x) {
      if Rests(st, id', x) {
        assert Known(depths, id', x);
      }
    }
    forall id', x | x in DepthOf(depths', id') ensures OrderRests(st', id', x) {
      assert OrderRests(st, id', x);
      var y :| Rests(st, id', y) && y.exchangeOrderId == x;
      assert Rests(st', id', if id' == id && y == o then o' else y);
    }
  }

  // ---------- matching ----------

  /** A trade print changes no book. */
  lemma PrintThen(depths: Depths, trade: FeedMessage, rest: seq<FeedMessage>, st': EngineState)
    requires trade.Trade?
    requires forall depths' :: (forall id :: DepthOf(depths', id) == DepthOf(depths, id)) ==>
               Followed(depths', rest).1 == 0 && Mirrors(st', Followed(depths', rest).0)
    ensures var r := Followed(depths, [trade] + rest); r.1 == 0 && Mirrors(st', r.0)
  {
    hide Mirrors;
    assert ([trade] + rest)[1..] == rest;
    var id := trade.instrumentId;
    var depths' := depths[id := DepthOf(depths, id)];
    assert forall x :: DepthOf(depths', x) == DepthOf(depths, x);
  }

  /** The mirror only looks at each instrument's depth. */
  lemma SameDepthsMirror(st: EngineState, depths: Depths, depths': Depths)
    requires Mirrors(st, depths) && forall id :: DepthOf(depths', id) == DepthOf(depths, id)
    ensures Mirrors(st, depths')
  {
    hide Rests;
    forall id, o | Rests(st, id, o) ensures Known(depths', id, o) {
      assert Known(depths, id, o);
    }
  }

  lemma FillFeed(st: EngineState, incoming: RestingOrder, c: nat, n: nat, clock: nat -> nat)
    requires incoming.instrumentId in st.books && CanFill(st, incoming)
    ensures var front := Contra(st, incoming)[0]; var id := incoming.instrumentId;
            var left := front.remainingQuantity - Min(incoming.remainingQuantity, front.remainingQuantity);
            var messages := Feed(FillOnce(st, incoming, c).events, n, clock);
            && |messages| == 2 && messages[0].Trade?
            && messages == [messages[0]] + [messages[1]]
            && messages[1] == if left == 0 then DeleteOrder(n + 1, clock(n + 1), front.exchangeOrderId, id)
                              else ModifyOrder(n + 1, clock(n + 1), front.exchangeOrderId, id, front.price, left)
  {
    var events := FillOnce(st, incoming, c).events;
    assert events == [events[0]] + [events[1]];
    FeedConcat([events[0]], [events[1]], n, clock);
    FeedOne(events[0], n, clock);
    FeedOne(events[1], n + 1, clock);
  }

  lemma FillKeepsUp(st: EngineState, depths: Depths, incoming: RestingOrder, c: nat, n: nat, clock: nat -> nat)
    requires WellFormed(st) && incoming.instrumentId in st.books && CanFill(st, incoming) && Mirrors(st, depths)
    ensures KeepsUp(depths, FillOnce(st, incoming, c).events, n, clock, FillOnce(st, incoming, c).state)
  {
    hide Mirrors, Feed, Followed, FillOnce, BooksOk, Rests, DirectorySound, Uncrossed;
    var st', id := FillOnce(st, incoming, c).state, incoming.instrumentId;
    var messages := Feed(FillOnce(st, incoming, c).events, n, clock);
    FillFeed(st, incoming, c, n, clock);
    FillOnceRests(st, incoming, c);
    var front := FrontIsGood(st, incoming);
    forall depths' | forall x :: DepthOf(depths', x) == DepthOf(depths, x)
      ensures Followed(depths', [messages[1]]).1 == 0 && Mirrors(st', Followed(depths', [messages[1]]).0)
    {
      SameDepthsMirror(st, depths, depths');
      if front.remainingQuantity <= incoming.remainingQuantity {
        MirrorsRemove(st, st', depths', id, front, n + 1, clock(n + 1));
      } else {
        MirrorsEdit(st, st', depths', id, front,
                    front.(remainingQuantity := front.remainingQuantity - incoming.remainingQuantity), n + 1, clock(n + 1));
      }
    }
    PrintThen(depths, messages[0], [messages[1]], st');
  }

  lemma FrontIsGood(st: EngineState, incoming: RestingOrder) returns (front: BookOrder)
    requires WellFormed(st) && incoming.instrumentId in st.books && CanFill(st, incoming)
    ensures front == Contra(st, incoming)[0] && Rests(st, incoming.instrumentId, front)
    ensures front.price > 0 && front.remainingQuantity > 0
  {
    front := Contra(st, incoming)[0];
    assert front in Contra(st, incoming);
  }

  lemma NothingToFollow(st: EngineState, depths: Depths, n: nat, clock: nat -> nat)
    requires Mirrors(st, depths)
    ensures KeepsUp(depths, [], n, clock, st)
  {
    hide Mirrors;
  }

  lemma {:induction false} MatchKeepsUp(st: EngineState, depths: Depths, incoming: RestingOrder, c: nat, n: nat,
                                        clock: nat -> nat)
    requires WellFormed(st) && incoming.instrumentId in st.books && Mirrors(st, depths)
    ensures KeepsUp(depths, MatchLoop(st, incoming, c).events, n, clock, MatchLoop(st, incoming, c).state)
    decreases |Contra(st, incoming)|, incoming.remainingQuantity
  {
    hide Mirrors, Feed, Followed, WellFormed, KeepsUp;
    if CanFill(st, incoming) {
      var one := FillOnce(st, incoming, c);
      var rest := MatchLoop(one.state, one.incoming, c);
      FillKeepsUp(st, depths, incoming, c, n, clock);
      FillOnceKeeps(st, incoming, c);
      forall depths' | Mirrors(one.state, depths')
        ensures KeepsUp(depths', rest.events, n + |Feed(one.events, n, clock)|, clock, rest.state)
      {
        MatchKeepsUp(one.state, depths', one.incoming, c, n + |Feed(one.events, n, clock)|, clock);
      }
      KeepsUpThen(depths, one.events, rest.events, n, clock, one.state, rest.state);
    } else {
      NothingToFollow(st, depths, n, clock);
    }
  }

  lemma OnePublic(depths: Depths, ev: Event, n: nat, clock: nat -> nat, st': EngineState)
    requires var m := Translate(ev, n, clock(n));
             m.Some? && Followed(depths, [m.value]).1 == 0 && Mirrors(st', Followed(depths, [m.value]).0)
    ensures KeepsUp(depths, [ev], n, clock, st')
  {
    hide Mirrors, Followed, Translate, Feed;
    FeedOne(ev, n, clock);
  }

  lemma RestKeepsUp(st: EngineState, depths: Depths, order: RestingOrder, n: nat, clock: nat -> nat)
    requires BooksOk(st) && FreshlyIssued(st, order) && Mirrors(st, depths)
    ensures KeepsUp(depths, RestRemainder(st, order).events, n, clock, RestRemainder(st, order).state)
  {
    hide Mirrors, Followed, BooksOk, Rests;
    if WillRest(order) {
      RestRests(st, order);
      MirrorsAdd(st, RestRemainder(st, order).state, depths, order.instrumentId, order.ToBookOrder(), n, clock(n));
      OnePublic(depths, RestRemainder(st, order).events[0], n, clock, RestRemainder(st, order).state);
    } else {
      NothingToFollow(st, depths, n, clock);
    }
  }

  lemma MatchAndRestKeepsUp(st: EngineState, depths: Depths, order: RestingOrder, c: nat, n: nat, clock: nat -> nat)
    requires WellFormed(st) && FreshlyIssued(st, order) && Mirrors(st, depths)
    ensures KeepsUp(depths, MatchAndRest(st, order, c).events, n, clock, MatchAndRest(st, order, c).state)
  {
    hide Mirrors, Feed, KeepsUp, MatchLoop, RestRemainder, DirectorySound, BooksOk, Uncrossed;
    MatchKeepsUp(st, depths, order, c, n, clock);
    MatchKeepsFresh(st, order, c);
    MatchKeeps(st, order, c);
    MatchIssued(st, order, c);
    var m := MatchLoop(st, order, c);
    var r := RestRemainder(m.state, m.incoming);
    forall depths' | Mirrors(m.state, depths')
      ensures KeepsUp(depths', r.events, n + |Feed(m.events, n, clock)|, clock, r.state)
    {
      RestKeepsUp(m.state, depths', m.incoming, n + |Feed(m.events, n, clock)|, clock);
    }
    KeepsUpThen(depths, m.events, r.events, n, clock, m.state, r.state);
  }

  lemma MatchIssued(st: EngineState, order: RestingOrder, c: nat)
    requires FreshlyIssued(st, order)
    ensures order.instrumentId in st.books
  {
  }

  // ---------- commands ----------

  /** An event with no public counterpart is not published. */
  lemma PrivateThen(depths: Depths, ev: Event, rest: seq<Event>, n: nat, clock: nat -> nat, st': EngineState)
    requires Translate(ev, n, clock(n)).None? && KeepsUp(depths, rest, n, clock, st')
    ensures KeepsUp(depths, [ev] + rest, n, clock, st')
  {
    hide Mirrors, Followed, Translate;
    assert ([ev] + rest)[1..] == rest;
  }

  lemma RejectKeepsUp(st: EngineState, depths: Depths, cmd: Command, reason: RejectReason, n: nat, clock: nat -> nat)
    requires Mirrors(st, depths)
    ensures KeepsUp(depths, RejectCommand(st, cmd, reason).events, n, clock, RejectCommand(st, cmd, reason).state)
  {
    var r := RejectCommand(st, cmd, reason);
    hide Followed, DepthOf;
    assert r.events == [r.events[0]] + [];
    assert forall id, o :: Rests(r.state, id, o) <==> Rests(st, id, o);
    forall id, x | x in DepthOf(depths, id) ensures OrderRests(r.state, id, x) {
      assert OrderRests(st, id, x);
      var o :| Rests(st, id, o) && o.exchangeOrderId == x;
      assert Rests(r.state, id, o);
    }
    FollowNothing(depths);
    PrivateThen(depths, r.events[0], [], n, clock, r.state);
  }

  lemma FollowNothing(depths: Depths)
    ensures Followed(depths, []) == (depths, 0)
  {
  }

  lemma NewOrderKeepsUp(st: EngineState, depths: Depths, cmd: Command, n: nat, clock: nat -> nat)
    requires WellFormed(st) && cmd.NewOrder? && Mirrors(st, depths)
    ensures KeepsUp(depths, ProcessNewOrder(st, cmd).events, n, clock, ProcessNewOrder(st, cmd).state)
  {
    hide KeepsUp, WellFormed, NewOrderVerdict, RejectCommand, MatchAndRest, FreshlyIssued, Mirrors;
    if NewOrderVerdict(st, cmd) == NoReason {
      NewOrderStart(st, cmd);
      var start, order := AfterAcceptance(st), AcceptedOrder(st, cmd);
      MirrorsCounters(st, start, depths);
      MatchAndRestKeepsUp(start, depths, order, cmd.commandSequence, n, clock);
      var r, m := ProcessNewOrder(st, cmd), MatchAndRest(start, order, cmd.commandSequence);
      assert r.events == [r.events[0]] + m.events;
      PrivateThen(depths, r.events[0], m.events, n, clock, r.state);
    } else {
      RejectKeepsUp(st, depths, cmd, NewOrderVerdict(st, cmd), n, clock);
    }
  }

  lemma MirrorsCounters(st: EngineState, st': EngineState, depths: Depths)
    requires Mirrors(st, depths) && st'.books == st.books
    ensures Mirrors(st', depths)
  {
    hide DepthOf;
    forall id, x | x in DepthOf(depths, id) ensures OrderRests(st', id, x) {
      assert OrderRests(st, id, x);
      var o :| Rests(st, id, o) && o.exchangeOrderId == x;
      assert Rests(st', id, o);
    }
    forall id, o | Rests(st', id, o) ensures Known(depths, id, o) {
      assert Rests(st, id, o);
    }
  }

  lemma CancelKeepsUp(st: EngineState, depths: Depths, cmd: Command, n: nat, clock: nat -> nat)
    requires WellFormed(st) && Locates(st) && cmd.CancelOrder? && Mirrors(st, depths)
    ensures KeepsUp(depths, ProcessCancel(st, cmd).events, n, clock, ProcessCancel(st, cmd).state)
  {
    hide KeepsUp, CancelVerdict, RejectCommand, Mirrors, Rests, Followed, BooksOk, DirectorySound, Uncrossed, SideOk;
    if CancelVerdict(st, cmd) == NoReason {
      CancelLocates(st, cmd);
      var key := LiveKey(cmd.accountId, cmd.clientOrderId);
      var r := ProcessCancel(st, cmd);
      var o := WithdrawalRests(st, r.state, key);
      MirrorsRemove(st, r.state, depths, cmd.instrumentId, o, n, clock(n));
      assert r.events == [r.events[0]] + [r.events[1]];
      OnePublic(depths, r.events[1], n, clock, r.state);
      PrivateThen(depths, r.events[0], [r.events[1]], n, clock, r.state);
    } else {
      RejectKeepsUp(st, depths, cmd, CancelVerdict(st, cmd), n, clock);
    }
  }

  lemma CancelLocates(st: EngineState, cmd: Command)
    requires cmd.CancelOrder? && CancelVerdict(st, cmd) == NoReason
    ensures LiveKey(cmd.accountId, cmd.clientOrderId) in st.directory
    ensures st.directory[LiveKey(cmd.accountId, cmd.clientOrderId)].instrumentId == cmd.instrumentId
  {
  }

  lemma ReplaceInPlaceKeepsUp(st: EngineState, depths: Depths, cmd: Command, n: nat, clock: nat -> nat)
    requires WellFormed(st) && Locates(st) && cmd.ReplaceOrder? && Mirrors(st, depths)
    requires ReplaceVerdict(st, cmd) == NoReason && PreservesPriority(st, cmd)
    ensures KeepsUp(depths, ReplaceInPlace(st, cmd).events, n, clock, ReplaceInPlace(st, cmd).state)
  {
    hide KeepsUp, Mirrors, Rests, Followed, BooksOk, DirectorySound, Uncrossed, SideOk, ReplacedOrder;
    ReplaceInPlaceRests(st, cmd);
    var r, o := ReplaceInPlace(st, cmd), ReplacedOrder(st, cmd);
    MirrorsEdit(st, r.state, depths, cmd.instrumentId, o,
                o.(remainingQuantity := cmd.newQuantity, clientOrderId := cmd.newClientOrderId), n, clock(n));
    assert r.events == [r.events[0]] + [r.events[1]];
    OnePublic(depths, r.events[1], n, clock, r.state);
    PrivateThen(depths, r.events[0], [r.events[1]], n, clock, r.state);
  }

  lemma ReentryKeepsUp(st: EngineState, depths: Depths, cmd: Command, n: nat, clock: nat -> nat)
    requires WellFormed(st) && Locates(st) && cmd.ReplaceOrder? && Mirrors(st, depths)
    requires ReplaceVerdict(st, cmd) == NoReason
    ensures KeepsUp(depths, ReplaceByReentry(st, cmd).events, n, clock, ReplaceByReentry(st, cmd).state)
  {
    hide KeepsUp, Mirrors, Rests, Followed, BooksOk, DirectorySound, Uncrossed, SideOk, MatchAndRest, FreshlyIssued,
         ReplacedOrder;
    var start, order, r := AfterWithdrawal(st, cmd), ReplacementOrder(st, cmd), ReplaceByReentry(st, cmd);
    ReplacedIs(st, cmd);
    ReentryStart(st, cmd);
    var o := WithdrawalRests(st, start, LiveKey(cmd.accountId, cmd.originalClientOrderId));
    MirrorsRemove(st, start, depths, cmd.instrumentId, o, n, clock(n));
    OnePublic(depths, r.events[1], n, clock, start);
    var m := MatchAndRest(start, order, cmd.commandSequence);
    forall depths' | Mirrors(start, depths')
      ensures KeepsUp(depths', m.events, n + |Feed([r.events[1]], n, clock)|, clock, m.state)
    {
      MatchAndRestKeepsUp(start, depths', order, cmd.commandSequence, n + |Feed([r.events[1]], n, clock)|, clock);
    }
    KeepsUpThen(depths, [r.events[1]], m.events, n, clock, start, m.state);
    assert r.events == [r.events[0]] + ([r.events[1]] + m.events);
    PrivateThen(depths, r.events[0], [r.events[1]] + m.events, n, clock, r.state);
  }

  lemma ReplacedIs(st: EngineState, cmd: Command)
    requires cmd.ReplaceOrder? && Locates(st) && ReplaceVerdict(st, cmd) == NoReason
    ensures var key := LiveKey(cmd.accountId, cmd.originalClientOrderId);
            && key in st.directory && st.directory[key].instrumentId == cmd.instrumentId
            && ReplacedOrder(st, cmd) == st.books[cmd.instrumentId].Find(st.directory[key].exchangeOrderId)
            && ReplacedOrder(st, cmd).exchangeOrderId == st.directory[key].exchangeOrderId
  {
  }

  /** A subscriber in step with the exchange stays in step over every command, and no message of it is refused. */
  lemma SubscriberKeepsUp(st: EngineState, depths: Depths, cmd: Command, n: nat, clock: nat -> nat)
    requires WellFormed(st) && Mirrors(st, depths)
    ensures Locates(st) && KeepsUp(depths, Process(st, cmd).events, n, clock, Process(st, cmd).state)
  {
    hide KeepsUp, Mirrors, WellFormed, ReplaceVerdict, RejectCommand, ProcessNewOrder, ProcessCancel, ReplaceInPlace,
         ReplaceByReentry, PreservesPriority;
    ProcessKeeps(st, cmd);
    match cmd
    case NewOrder(_, _, _, _, _, _, _, _, _) => NewOrderKeepsUp(st, depths, cmd, n, clock);
    case CancelOrder(_, _, _, _) => CancelKeepsUp(st, depths, cmd, n, clock);
    case ReplaceOrder(_, _, _, _, _, _, _) =>
      if ReplaceVerdict(st, cmd) != NoReason {
        RejectKeepsUp(st, depths, cmd, ReplaceVerdict(st, cmd), n, clock);
      } else if PreservesPriority(st, cmd) {
        ReplaceInPlaceKeepsUp(st, depths, cmd, n, clock);
      } else {
        ReentryKeepsUp(st, depths, cmd, n, clock);
      }
  }

  /** Over a whole run: a subscriber that started with the exchange applies every message published. */
  lemma {:induction false} SubscriberKeepsUpOverRuns(st: EngineState, depths: Depths, cmds: seq<Command>, n: nat,
                                                     clock: nat -> nat)
    requires WellFormed(st) && Mirrors(st, depths)
    ensures KeepsUp(depths, Run(st, cmds).events, n, clock, Run(st, cmds).state)
    decreases |cmds|
  {
    hide KeepsUp, Mirrors, WellFormed, Process, Feed;
    if cmds == [] {
      NothingToFollow(st, depths, n, clock);
    } else {
      SubscriberKeepsUp(st, depths, cmds[0], n, clock);
      ProcessKeeps(st, cmds[0]);
      var one := Process(st, cmds[0]);
      var rest := Run(one.state, cmds[1..]);
      forall depths' | Mirrors(one.state, depths')
        ensures KeepsUp(depths', rest.events, n + |Feed(one.events, n, clock)|, clock, rest.state)
      {
        SubscriberKeepsUpOverRuns(one.state, depths', cmds[1..], n + |Feed(one.events, n, clock)|, clock);
      }
      KeepsUpThen(depths, one.events, rest.events, n, clock, one.state, rest.state);
    }
  }
}
