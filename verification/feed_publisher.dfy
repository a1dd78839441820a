/** The publisher as it runs: one sequence number per message sent, none for an event that stays private. */
module FeedPublishers {
  import opened ExchangeTypes
  import opened FeedModel

  class MarketDataPublisher {
    var nextSequence: nat

    constructor ()
      ensures nextSequence == 1
    {
      nextSequence := 1;
    }

    method NextSequenceNumber() returns (n: nat)
      modifies this
      ensures n == old(nextSequence) && nextSequence == n + 1
    {
      n := nextSequence;
      nextSequence := n + 1;
    }

    method Publish(ev: Event, clock: nat -> nat) returns (message: Option<FeedMessage>)
      modifies this
      ensures message == Translate(ev, old(nextSequence), clock(old(nextSequence)))
      ensures nextSequence == old(nextSequence) + if message.Some? then 1 else 0
    {
      match ev {
        case BookOrderAdded(_, id, eid, side, price, quantity) =>
          var n := NextSequenceNumber();
          message := Some(AddOrder(n, clock(n), eid, id, price, quantity, side));
        case BookOrderReduced(_, id, eid, side, price, left) =>
          var n := NextSequenceNumber();
          message := Some(ModifyOrder(n, clock(n), eid, id, price, left));
        case BookOrderRemoved(_, id, eid, side, price) =>
          var n := NextSequenceNumber();
          message := Some(DeleteOrder(n, clock(n), eid, id));
        case TradeExecuted(_, _, id, price, quantity, side, _, _) =>
          var n := NextSequenceNumber();
          message := Some(Trade(n, clock(n), id, price, quantity, side));
        case _ =>
          message := None;
      }
    }

    /** The publisher as a sink for a whole list of events. */
    method PublishAll(events: seq<Event>, clock: nat -> nat) returns (messages: seq<FeedMessage>)
      modifies this
      ensures messages == Feed(events, old(nextSequence), clock)
      ensures nextSequence == old(nextSequence) + |messages|
    {
      hide Translate, Feed;
      messages := [];
      assert events[0..] == events;
      for i := 0 to |events|
        invariant nextSequence == old(nextSequence) + |messages|
        invariant messages + Feed(events[i..], nextSequence, clock) == Feed(events, old(nextSequence), clock)
      {
        FeedUnrolls(events, i, nextSequence, clock);
        var message := Publish(events[i], clock);
        if message.Some? {
          messages := messages + [message.value];
        }
      }
      FeedEnds(events, nextSequence, clock);
    }
  }

  lemma FeedUnrolls(events: seq<Event>, i: nat, n: nat, clock: nat -> nat)
    requires i < |events|
    ensures var message := Translate(events[i], n, clock(n));
            Feed(events[i..], n, clock)
              == if message.None? then Feed(events[i + 1..], n, clock)
                 else [message.value] + Feed(events[i + 1..], n + 1, clock)
  {
    hide Translate;
    assert events[i..][0] == events[i] && events[i..][1..] == events[i + 1..];
  }

  lemma FeedEnds(events: seq<Event>, n: nat, clock: nat -> nat)
    ensures Feed(events[|events|..], n, clock) == []
  {
  }

  predicate Stamped(m: FeedMessage, n: nat, clock: nat -> nat) {
    m.sequence == n && m.timestamp == clock(n)
  }

  /** The messages published for any events are numbered consecutively, whatever private events lie between. */
  lemma {:induction false} FeedNumbers(events: seq<Event>, first: nat, clock: nat -> nat)
    ensures forall i :: 0 <= i < |Feed(events, first, clock)| ==> Stamped(Feed(events, first, clock)[i], first + i, clock)
  {
    hide Translate, Stamped;
    if events != [] {
      var message := Translate(events[0], first, clock(first));
      if message.None? {
        FeedNumbers(events[1..], first, clock);
      } else {
        FeedNumbers(events[1..], first + 1, clock);
        TranslateStamps(events[0], first, clock);
        var all, rest := Feed(events, first, clock), Feed(events[1..], first + 1, clock);
        assert all == [message.value] + rest;
        forall i | 0 < i < |all| ensures Stamped(all[i], first + i, clock) {
          assert Stamped(rest[i - 1], first + 1 + (i - 1), clock);
        }
      }
    }
  }

  lemma TranslateStamps(ev: Event, n: nat, clock: nat -> nat)
    ensures var m := Translate(ev, n, clock(n)); m.Some? ==> Stamped(m.value, n, clock)
  {
  }
}
