/** The subscriber's order book as it runs: add, cancel and modify in place, and the views it answers with. */
module TraderBooks {
  import opened ExchangeTypes
  import opened MatchingModel
  import opened FeedModel
  import opened SideIndexes
  import opened TraderLevels

  /** One line of displayed depth. */
  datatype LevelView = LevelView(price: Price, aggregate: nat, orderCount: nat)

  function ViewOf(p: Price, q: seq<Entry>): LevelView {
    LevelView(p, Total(q), |q|)
  }

  /** The displayed depth of one side, best price first. */
  ghost function Ladder(side: Side, levels: map<Price, PriceLevel>): seq<LevelView>
    decreases |levels|
  {
    if levels == map[] then []
    else
      assert levels.Keys != {} by { SomePrice(levels); }
      var p := Extreme(side, levels.Keys);
      [LevelView(p, levels[p].aggregate, |levels[p].orders|)] + Ladder(side, levels - {p})
  }

  lemma SomePrice(levels: map<Price, PriceLevel>)
    requires levels != map[]
    ensures levels.Keys != {}
  {
    assert levels.Keys == {} ==> levels == map[];
  }

  lemma LadderSteps(side: Side, left: map<Price, PriceLevel>, done: seq<LevelView>)
    requires left != map[]
    ensures left.Keys != {}
    ensures var p := Extreme(side, left.Keys);
            done + Ladder(side, left)
              == done + [LevelView(p, left[p].aggregate, |left[p].orders|)] + Ladder(side, left - {p})
  {
    SomePrice(left);
    var p := Extreme(side, left.Keys);
    assert done + ([LevelView(p, left[p].aggregate, |left[p].orders|)] + Ladder(side, left - {p}))
        == done + [LevelView(p, left[p].aggregate, |left[p].orders|)] + Ladder(side, left - {p});
  }

  lemma LadderEnds(side: Side)
    ensures Ladder(side, map[]) == []
  {
  }

  lemma TakeFirst(all: seq<LevelView>, done: seq<LevelView>, rest: seq<LevelView>, n: nat)
    requires all == done + rest && |done| <= n && (rest == [] || |done| == n)
    ensures done == all[..Min(n, |all|)]
  {
  }

  /** Every resting order of one side, best price first and in queue order within a price. */
  ghost function Listing(side: Side, levels: map<Price, PriceLevel>): seq<(Price, seq<Entry>)>
    decreases |levels|
  {
    if levels == map[] then []
    else
      assert levels.Keys != {} by { SomePrice(levels); }
      var p := Extreme(side, levels.Keys);
      [(p, levels[p].orders)] + Listing(side, levels - {p})
  }

  class OrderBook {
    var bids: map<Price, PriceLevel>
    var asks: map<Price, PriceLevel>
    var index: map<ExchangeOrderId, Location>

    ghost function State(): BookState
      reads this
    {
      BookState(bids, asks, index)
    }

    ghost predicate Valid()
      reads this
    {
      Linked(State())
    }

    constructor ()
      ensures Valid() && State() == NO_DEPTH && Contents(State()) == map[]
    {
      bids, asks, index := map[], map[], map[];
    }

    method InsertAt(side: Side, id: ExchangeOrderId, price: Price, quantity: Quantity)
      modifies this
      ensures State() == Inserted(old(State()), side, id, price, quantity)
    {
      if side.Buy? {
        var level := if price in bids then bids[price] else PriceLevel([], 0);
        bids := bids[price := level.Add(Entry(id, quantity))];
      } else {
        var level := if price in asks then asks[price] else PriceLevel([], 0);
        asks := asks[price := level.Add(Entry(id, quantity))];
      }
      index := index[id := Location(side, price)];
    }

    /** Erases an indexed order from its level, and the level too once empty. */
    method EraseAt(id: ExchangeOrderId) returns (ghost i: nat)
      requires Valid() && id in index
      modifies this
      ensures StandsAt(old(State()), id, i) && State() == Erased(old(State()), id, i)
    {
      hide Linked;
      i := Standing(State(), id);
      var at := index[id];
      if at.side.Buy? {
        var level := bids[at.price].Remove(PositionOf(bids[at.price].orders, id));
        bids := if level.orders == [] then bids - {at.price} else bids[at.price := level];
      } else {
        var level := asks[at.price].Remove(PositionOf(asks[at.price].orders, id));
        asks := if level.orders == [] then asks - {at.price} else asks[at.price := level];
      }
      index := index - {id};
    }

    /** Joins the back of its price level. */
    method AddOrder(id: ExchangeOrderId, price: Price, quantity: Quantity, side: Side) returns (error: Option<BookError>)
      requires Valid()
      modifies this
      ensures Valid()
      ensures DepthResult(Contents(State()), error) == Added(old(Contents(State())), id, price, quantity, side)
      ensures State() == if error.Some? then old(State()) else Inserted(old(State()), side, id, price, quantity)
    {
      hide Linked, Contents, Inserted;
      ContentsKeys(State());
      assert id in index <==> id in Contents(State()).Keys;
      if price <= 0 {
        return Some(BadPrice);
      }
      if quantity == 0 {
        return Some(BadQuantity);
      }
      if id in index {
        return Some(DuplicateId);
      }
      InsertContents(State(), side, id, price, quantity);
      InsertAt(side, id, price, quantity);
      error := None;
    }

    method CancelOrder(id: ExchangeOrderId) returns (error: Option<BookError>)
      requires Valid()
      modifies this
      ensures Valid()
      ensures DepthResult(Contents(State()), error) == Deleted(old(Contents(State())), id)
      ensures error.Some? ==> State() == old(State())
      ensures error.None? ==> exists i :: StandsAt(old(State()), id, i) && State() == Erased(old(State()), id, i)
    {
      hide Linked, Contents, Erased, StandsAt;
      ContentsKeys(State());
      assert id in index <==> id in Contents(State()).Keys;
      if id !in index {
        return Some(UnknownId);
      }
      ghost var before := State();
      ghost var i := EraseAt(id);
      EraseContents(before, id, i);
      error := None;
    }

    /** Re-added at the back of its level, even when only the quantity falls. */
    method ModifyOrder(id: ExchangeOrderId, newPrice: Price, newQuantity: Quantity) returns (error: Option<BookError>)
      requires Valid()
      modifies this
      ensures Valid()
      ensures DepthResult(Contents(State()), error) == Modified(old(Contents(State())), id, newPrice, newQuantity)
      ensures error.Some? ==> State() == old(State())
      ensures error.None? ==>
                id in old(index) &&
                exists i :: StandsAt(old(State()), id, i) &&
                            State() == Inserted(Erased(old(State()), id, i), old(index[id].side), id, newPrice, newQuantity)
    {
      hide Linked, Contents, Erased, StandsAt, Inserted;
      ContentsKeys(State());
      assert id in index <==> id in Contents(State()).Keys;
      if newPrice <= 0 {
        return Some(BadPrice);
      }
      if newQuantity == 0 {
        return Some(BadQuantity);
      }
      if id !in index {
        return Some(UnknownId);
      }
      var side := index[id].side;
      ghost var before := State();
      ContentsSide(before, id);
      ghost var i := EraseAt(id);
      EraseContents(before, id, i);
      EraseIndex(before, id, i);
      InsertContents(State(), side, id, newPrice, newQuantity);
      InsertAt(side, id, newPrice, newQuantity);
      error := None;
    }

    method Clear()
      modifies this
      ensures Valid() && State() == NO_DEPTH && Contents(State()) == map[]
    {
      bids, asks, index := map[], map[], map[];
    }

    /** One feed message for this instrument. */
    method ApplyMessage(message: FeedMessage) returns (error: Option<BookError>)
      requires Valid()
      modifies this
      ensures Valid()
      ensures State() == Heard(old(State()), message)
      ensures DepthResult(Contents(State()), error) == AppliedTo(old(Contents(State())), message)
    {
      hide Linked, Contents, Inserted, Erased, StandsAt;
      ghost var before := State();
      ContentsKeys(before);
      match message {
        case AddOrder(_, _, id, _, price, quantity, side) =>
          assert id in before.index <==> id in Contents(before).Keys;
          error := AddOrder(id, price, quantity, side);
        case DeleteOrder(_, _, id, _) =>
          assert id in before.index <==> id in Contents(before).Keys;
          error := CancelOrder(id);
          if error.None? {
            ghost var i :| StandsAt(before, id, i) && State() == Erased(before, id, i);
            OnePlace(before, id, i);
          }
        case ModifyOrder(_, _, id, _, price, quantity) =>
          assert id in before.index <==> id in Contents(before).Keys;
          error := ModifyOrder(id, price, quantity);
          if error.None? {
            ghost var i :| StandsAt(before, id, i)
                        && State() == Inserted(Erased(before, id, i), before.index[id].side, id, price, quantity);
            OnePlace(before, id, i);
          }
        case Trade(_, _, _, _, _, _) => error := None;
        case ClearBook(_, _, _) =>
          Clear();
          error := None;
      }
    }

    method Best(side: Side) returns (best: Option<LevelView>)
      requires Valid()
      ensures best.None? <==> State().Levels(side) == map[]
      ensures best.Some? ==> var p := best.value.price;
                IsBest(side, p, State().Levels(side).Keys) && best.value == ViewOf(p, State().QueueAt(side, p))
    {
      hide EntriesIndexed, IndexStands, LevelOk, IsBest, Total;
      var levels := if side.Buy? then bids else asks;
      if levels == map[] {
        return None;
      }
      SomePrice(levels);
      HasExtreme(side, levels.Keys);
      var p := FirstPrice(side, levels);
      LevelTotals(State(), side, p);
      best := Some(LevelView(p, levels[p].aggregate, |levels[p].orders|));
    }

    /** begin() of an ordered map. */
    static method FirstPrice(side: Side, levels: map<Price, PriceLevel>) returns (p: Price)
      requires levels.Keys != {}
      ensures IsBest(side, p, levels.Keys) && p == Extreme(side, levels.Keys)
    {
      HasExtreme(side, levels.Keys);
      p :| p in levels.Keys && forall q :: q in levels.Keys ==> q == p || Better(side, p, q);
    }

    /** The n best levels, best first. */
    method Top(side: Side, n: nat) returns (result: seq<LevelView>)
      requires Valid()
      ensures var ladder := Ladder(side, State().Levels(side)); result == ladder[..Min(n, |ladder|)]
    {
      hide Linked, IsBest, Extreme, Ladder;
      var left := if side.Buy? then bids else asks;
      result := [];
      while left != map[] && |result| < n
        invariant |result| <= n
        invariant Ladder(side, State().Levels(side)) == result + Ladder(side, left)
        decreases |left|
      {
        LadderSteps(side, left, result);
        SomePrice(left);
        var p := FirstPrice(side, left);
        result := result + [LevelView(p, left[p].aggregate, |left[p].orders|)];
        left := left - {p};
      }
      LadderEnds(side);
      TakeFirst(Ladder(side, State().Levels(side)), result, Ladder(side, left), n);
    }

    /** Every order of one side, level by level. */
    method All(side: Side) returns (result: seq<(Price, seq<Entry>)>)
      requires Valid()
      ensures result == Listing(side, State().Levels(side))
    {
      hide Linked, IsBest, Extreme;
      var left := if side.Buy? then bids else asks;
      result := [];
      while left != map[]
        invariant Listing(side, State().Levels(side)) == result + Listing(side, left)
        decreases |left|
      {
        SomePrice(left);
        var p := FirstPrice(side, left);
        result := result + [(p, left[p].orders)];
        left := left - {p};
      }
    }
  }

  lemma LevelTotals(b: BookState, side: Side, p: Price)
    requires LevelsOk(b) && p in b.Levels(side)
    ensures b.Levels(side)[p].aggregate == Total(b.QueueAt(side, p))
  {
    assert LevelOk(p, b.Levels(side)[p]);
  }
}
