/** The subscriber's price levels: first-in-first-out queues under each price, with running totals and an index by
    order id, and what insertion and erasure do to them. */
module TraderLevels {
  import opened ExchangeTypes
  import opened MatchingModel
  import opened FeedModel
  import opened SideIndexes

  datatype Entry = Entry(orderId: ExchangeOrderId, quantity: Quantity)

  /** A queue of orders at one price and the sum of their quantities. */
  datatype PriceLevel = PriceLevel(orders: seq<Entry>, aggregate: nat) {
    function Add(e: Entry): PriceLevel {
      PriceLevel(orders + [e], aggregate + e.quantity)
    }

    function Remove(i: nat): PriceLevel
      requires i < |orders| && orders[i].quantity <= aggregate
    {
      PriceLevel(orders[..i] + orders[i + 1..], aggregate - orders[i].quantity)
    }
  }

  /** Where an order is; the list iterator it carries is the order's own id. */
  datatype Location = Location(side: Side, price: Price)

  datatype BookState = BookState(
    bids: map<Price, PriceLevel>, asks: map<Price, PriceLevel>, index: map<ExchangeOrderId, Location>)
  {
    function Levels(side: Side): map<Price, PriceLevel> {
      if side.Buy? then bids else asks
    }

    function With(side: Side, levels: map<Price, PriceLevel>): BookState {
      if side.Buy? then this.(bids := levels) else this.(asks := levels)
    }

    function QueueAt(side: Side, p: Price): seq<Entry> {
      if p in Levels(side) then Levels(side)[p].orders else []
    }
  }

  const NO_DEPTH := BookState(map[], map[], map[])

  function Total(q: seq<Entry>): nat {
    if q == [] then 0 else q[0].quantity + Total(q[1..])
  }

  ghost predicate Distinct(q: seq<Entry>) {
    forall i, j :: 0 <= i < j < |q| ==> q[i].orderId != q[j].orderId
  }

  predicate Queued(q: seq<Entry>, id: ExchangeOrderId) {
    exists i :: 0 <= i < |q| && q[i].orderId == id
  }

  function PositionOf(q: seq<Entry>, id: ExchangeOrderId): (i: nat)
    requires Queued(q, id)
    ensures i < |q| && q[i].orderId == id
  {
    if q[0].orderId == id then 0
    else
      assert Queued(q[1..], id) by {
        var i :| 0 <= i < |q| && q[i].orderId == id;
        assert q[1..][i - 1].orderId == id;
      }
      1 + PositionOf(q[1..], id)
  }

  ghost predicate LevelOk(p: Price, level: PriceLevel) {
    && p > 0 && level.orders != [] && Distinct(level.orders) && level.aggregate == Total(level.orders)
    && forall e :: e in level.orders ==> e.quantity > 0
  }

  ghost predicate LevelsOk(b: BookState) {
    forall side, p :: p in b.Levels(side) ==> LevelOk(p, b.Levels(side)[p])
  }

  /** Every entry is indexed where it stands. */
  ghost predicate EntriesIndexed(b: BookState) {
    forall side, p, e :: e in b.QueueAt(side, p) ==> IndexedAt(b, e.orderId, side, p)
  }

  /** Every indexed order stands where the index says. */
  ghost predicate IndexStands(b: BookState) {
    forall id :: id in b.index ==> Queued(b.QueueAt(b.index[id].side, b.index[id].price), id)
  }

  ghost predicate Linked(b: BookState) {
    LevelsOk(b) && EntriesIndexed(b) && IndexStands(b)
  }

  predicate IndexedAt(b: BookState, id: ExchangeOrderId, side: Side, p: Price) {
    id in b.index && b.index[id] == Location(side, p)
  }

  /** The orders of the book by id. */
  ghost function Contents(b: BookState): Depth
    requires Linked(b)
  {
    map id | id in b.index ::
      var q := b.QueueAt(b.index[id].side, b.index[id].price);
      Quote(b.index[id].side, b.index[id].price, q[PositionOf(q, id)].quantity)
  }

  lemma Holds(b: BookState, side: Side, p: Price, e: Entry)
    requires Linked(b) && e in b.QueueAt(side, p)
    ensures e.orderId in Contents(b) && Contents(b)[e.orderId] == Quote(side, p, e.quantity)
  {
    hide Total;
    var q := b.QueueAt(side, p);
    assert IndexedAt(b, e.orderId, side, p);
    QueueDistinct(b, side, p);
    var i :| 0 <= i < |q| && q[i] == e;
    assert Queued(q, e.orderId);
    var j := PositionOf(q, e.orderId);
    assert i == j;
  }

  lemma QueueDistinct(b: BookState, side: Side, p: Price)
    requires Linked(b)
    ensures Distinct(b.QueueAt(side, p))
  {
    if p in b.Levels(side) {
      assert LevelOk(p, b.Levels(side)[p]);
    }
  }

  lemma {:induction false} TotalSplit(a: seq<Entry>, b: seq<Entry>)
    ensures Total(a + b) == Total(a) + Total(b)
  {
    if a == [] {
      assert a + b == b;
    } else {
      assert (a + b)[1..] == a[1..] + b;
      TotalSplit(a[1..], b);
    }
  }

  lemma TotalOne(e: Entry)
    ensures Total([e]) == e.quantity
  {
    assert [e][1..] == [];
  }

  lemma TotalWithout(q: seq<Entry>, i: nat)
    requires i < |q|
    ensures Total(q) == q[i].quantity + Total(q[..i] + q[i + 1..])
  {
    hide Total;
    assert q == q[..i] + ([q[i]] + q[i + 1..]);
    TotalSplit(q[..i], [q[i]] + q[i + 1..]);
    TotalSplit([q[i]], q[i + 1..]);
    TotalSplit(q[..i], q[i + 1..]);
    TotalOne(q[i]);
  }

  // ---------- the two primitive changes ----------

  function Inserted(b: BookState, side: Side, id: ExchangeOrderId, price: Price, quantity: Quantity): BookState {
    var level := if price in b.Levels(side) then b.Levels(side)[price] else PriceLevel([], 0);
    b.With(side, b.Levels(side)[price := level.Add(Entry(id, quantity))]).(index :=
      b.index[id := Location(side, price)])
  }

  /** Position i of its queue is where the order indexed under `id` stands, and nowhere else. */
  ghost predicate StandsAt(b: BookState, id: ExchangeOrderId, i: nat) {
    && id in b.index
    && var l := b.index[id];
    && l.price in b.Levels(l.side)
    && var level := b.Levels(l.side)[l.price];
    && i < |level.orders| && level.orders[i].orderId == id && level.orders[i].quantity <= level.aggregate
    && LevelOk(l.price, level)
    && (forall j :: 0 <= j < |level.orders| && j != i ==> level.orders[j].orderId != id)
  }

  /** erase_at, and the index entry with it: a level that empties goes too. */
  function Erased(b: BookState, id: ExchangeOrderId, i: nat): BookState
    requires StandsAt(b, id, i)
  {
    var side, price := b.index[id].side, b.index[id].price;
    var level := b.Levels(side)[price].Remove(i);
    b.With(side, if level.orders == [] then b.Levels(side) - {price} else b.Levels(side)[price := level]).(index :=
      b.index - {id})
  }

  lemma AddedLevelOk(p: Price, level: PriceLevel, e: Entry)
    requires level == PriceLevel([], 0) || LevelOk(p, level)
    requires p > 0 && e.quantity > 0 && !Queued(level.orders, e.orderId)
    ensures LevelOk(p, level.Add(e))
  {
    TotalSplit(level.orders, [e]);
    forall x | x in level.Add(e).orders ensures x.quantity > 0 {
    }
  }

  lemma InsertQueues(b: BookState, side: Side, id: ExchangeOrderId, price: Price, quantity: Quantity, side': Side,
                     p: Price)
    ensures Inserted(b, side, id, price, quantity).QueueAt(side', p)
              == b.QueueAt(side', p) + if side' == side && p == price then [Entry(id, quantity)] else []
  {
  }

  lemma NotQueued(b: BookState, side: Side, id: ExchangeOrderId, p: Price)
    requires EntriesIndexed(b) && id !in b.index
    ensures !Queued(b.QueueAt(side, p), id)
  {
    var q := b.QueueAt(side, p);
    forall i | 0 <= i < |q| ensures q[i].orderId != id {
      assert q[i] in q;
      assert IndexedAt(b, q[i].orderId, side, p);
    }
  }

  lemma InsertLevels(b: BookState, side: Side, id: ExchangeOrderId, price: Price, quantity: Quantity)
    requires LevelsOk(b) && EntriesIndexed(b) && id !in b.index && price > 0 && quantity > 0
    ensures LevelsOk(Inserted(b, side, id, price, quantity))
  {
    hide LevelOk;
    var level := if price in b.Levels(side) then b.Levels(side)[price] else PriceLevel([], 0);
    NotQueued(b, side, id, price);
    AddedLevelOk(price, level, Entry(id, quantity));
    var b' := Inserted(b, side, id, price, quantity);
    forall side', p | p in b'.Levels(side') ensures LevelOk(p, b'.Levels(side')[p]) {
      assert !(side' == side && p == price) ==> p in b.Levels(side') && b'.Levels(side')[p] == b.Levels(side')[p];
    }
  }

  lemma InsertLinked(b: BookState, side: Side, id: ExchangeOrderId, price: Price, quantity: Quantity)
    requires Linked(b) && id !in b.index && price > 0 && quantity > 0
    ensures Linked(Inserted(b, side, id, price, quantity))
  {
    hide LevelsOk, Inserted, BookState.QueueAt;
    var b' := Inserted(b, side, id, price, quantity);
    InsertLevels(b, side, id, price, quantity);
    InsertIndex(b, side, id, price, quantity);
    forall side', p, e | e in b'.QueueAt(side', p) ensures IndexedAt(b', e.orderId, side', p) {
      InsertQueues(b, side, id, price, quantity, side', p);
      if e in b.QueueAt(side', p) {
        assert IndexedAt(b, e.orderId, side', p);
      }
    }
    forall x | x in b'.index ensures Queued(b'.QueueAt(b'.index[x].side, b'.index[x].price), x) {
      var l := b'.index[x];
      InsertQueues(b, side, id, price, quantity, l.side, l.price);
      var q, q' := b.QueueAt(l.side, l.price), b'.QueueAt(l.side, l.price);
      if x == id {
        assert q'[|q|].orderId == id;
      } else {
        assert Queued(q, x);
        var i :| 0 <= i < |q| && q[i].orderId == x;
        assert q'[i].orderId == x;
      }
    }
  }

  lemma InsertContents(b: BookState, side: Side, id: ExchangeOrderId, price: Price, quantity: Quantity)
    requires Linked(b) && id !in b.index && price > 0 && quantity > 0
    ensures Linked(Inserted(b, side, id, price, quantity))
    ensures Contents(Inserted(b, side, id, price, quantity)) == Contents(b)[id := Quote(side, price, quantity)]
  {
    hide Linked, Contents, Inserted;
    InsertLinked(b, side, id, price, quantity);
    var b' := Inserted(b, side, id, price, quantity);
    InsertIndex(b, side, id, price, quantity);
    InsertQueues(b, side, id, price, quantity, side, price);
    Holds(b', side, price, Entry(id, quantity));
    ContentsKeys(b);
    ContentsKeys(b');
    assert Contents(b').Keys == Contents(b)[id := Quote(side, price, quantity)].Keys;
    forall x | x in b.index ensures Contents(b')[x] == Contents(b)[x] {
      var e := EntryFor(b, x);
      InsertQueues(b, side, id, price, quantity, b.index[x].side, b.index[x].price);
      Holds(b, b.index[x].side, b.index[x].price, e);
      Holds(b', b.index[x].side, b.index[x].price, e);
    }
  }

  lemma InsertIndex(b: BookState, side: Side, id: ExchangeOrderId, price: Price, quantity: Quantity)
    ensures Inserted(b, side, id, price, quantity).index == b.index[id := Location(side, price)]
  {
  }

  lemma ContentsKeys(b: BookState)
    requires Linked(b)
    ensures Contents(b).Keys == b.index.Keys
  {
  }

  lemma EntryFor(b: BookState, id: ExchangeOrderId) returns (e: Entry)
    requires Linked(b) && id in b.index
    ensures e in b.QueueAt(b.index[id].side, b.index[id].price) && e.orderId == id
  {
    var q := b.QueueAt(b.index[id].side, b.index[id].price);
    assert Queued(q, id);
    e := q[PositionOf(q, id)];
  }

  lemma Standing(b: BookState, id: ExchangeOrderId) returns (i: nat)
    requires Linked(b) && id in b.index
    ensures StandsAt(b, id, i)
    ensures i == PositionOf(b.QueueAt(b.index[id].side, b.index[id].price), id)
  {
    var l := b.index[id];
    var q := b.QueueAt(l.side, l.price);
    i := PositionOf(q, id);
    assert LevelOk(l.price, b.Levels(l.side)[l.price]);
    TotalWithout(q, i);
  }

  lemma RemovedLevelOk(p: Price, level: PriceLevel, i: nat)
    requires LevelOk(p, level) && i < |level.orders| && level.orders[i].quantity <= level.aggregate
    ensures level.Remove(i).orders != [] ==> LevelOk(p, level.Remove(i))
  {
    TotalWithout(level.orders, i);
    forall x | x in level.Remove(i).orders ensures x in level.orders {
    }
  }

  lemma EraseQueues(b: BookState, id: ExchangeOrderId, i: nat, side: Side, p: Price)
    requires StandsAt(b, id, i)
    ensures var q := b.QueueAt(side, p);
            Erased(b, id, i).QueueAt(side, p)
              == if Location(side, p) == b.index[id] then WithoutEntry(q, i) else q
  {
    hide LevelOk;
  }

  function WithoutEntry(q: seq<Entry>, i: nat): seq<Entry> {
    if i < |q| then q[..i] + q[i + 1..] else q
  }

  lemma EraseLevels(b: BookState, id: ExchangeOrderId, i: nat)
    requires LevelsOk(b) && StandsAt(b, id, i)
    ensures LevelsOk(Erased(b, id, i))
  {
    hide LevelOk;
    RemovedLevelOk(b.index[id].price, b.Levels(b.index[id].side)[b.index[id].price], i);
    var b' := Erased(b, id, i);
    forall side, p | p in b'.Levels(side) ensures LevelOk(p, b'.Levels(side)[p]) {
      assert Location(side, p) != b.index[id] ==> p in b.Levels(side) && b'.Levels(side)[p] == b.Levels(side)[p];
    }
  }

  lemma EraseIndex(b: BookState, id: ExchangeOrderId, i: nat)
    requires StandsAt(b, id, i)
    ensures Erased(b, id, i).index == b.index - {id}
  {
  }

  lemma StandingQueue(b: BookState, id: ExchangeOrderId, i: nat)
    requires StandsAt(b, id, i)
    ensures id in b.index
    ensures var q := b.QueueAt(b.index[id].side, b.index[id].price);
            && i < |q| && q[i].orderId == id && forall j :: 0 <= j < |q| && j != i ==> q[j].orderId != id
  {
  }

  lemma EraseLinked(b: BookState, id: ExchangeOrderId, i: nat)
    requires Linked(b) && StandsAt(b, id, i)
    ensures Linked(Erased(b, id, i))
  {
    hide LevelsOk, StandsAt, Erased, BookState.QueueAt;
    EraseLevels(b, id, i);
    EraseIndex(b, id, i);
    var b' := Erased(b, id, i);
    StandingQueue(b, id, i);
    forall side, p, e | e in b'.QueueAt(side, p) ensures IndexedAt(b', e.orderId, side, p) {
      EraseQueues(b, id, i, side, p);
      assert e in b.QueueAt(side, p);
      assert IndexedAt(b, e.orderId, side, p);
    }
    forall x | x in b'.index ensures Queued(b'.QueueAt(b'.index[x].side, b'.index[x].price), x) {
      EraseStands(b, id, i, x);
    }
  }

  /** Every other order still stands in its queue, perhaps one place further up. */
  lemma EraseStands(b: BookState, id: ExchangeOrderId, i: nat, x: ExchangeOrderId)
    requires IndexStands(b) && StandsAt(b, id, i) && x in b.index && x != id
    ensures Queued(Erased(b, id, i).QueueAt(b.index[x].side, b.index[x].price), x)
  {
    hide StandsAt, Erased, BookState.QueueAt;
    EraseQueues(b, id, i, b.index[x].side, b.index[x].price);
    StandingQueue(b, id, i);
    var q, l := b.QueueAt(b.index[x].side, b.index[x].price), b.index[id];
    var q' := Erased(b, id, i).QueueAt(b.index[x].side, b.index[x].price);
    assert Queued(q, x);
    var j :| 0 <= j < |q| && q[j].orderId == x;
    if b.index[x] == l && j > i {
      assert q'[j - 1].orderId == x;
    } else {
      assert q'[j].orderId == x;
    }
  }

  lemma EraseContents(b: BookState, id: ExchangeOrderId, i: nat)
    requires Linked(b) && StandsAt(b, id, i)
    ensures Linked(Erased(b, id, i)) && Contents(Erased(b, id, i)) == Contents(b) - {id}
  {
    hide StandsAt, Erased, Linked, Contents;
    EraseLinked(b, id, i);
    EraseIndex(b, id, i);
    var b' := Erased(b, id, i);
    ContentsKeys(b);
    ContentsKeys(b');
    forall x | x in b'.index ensures Contents(b')[x] == Contents(b)[x] {
      var e := EntryFor(b', x);
      EraseQueues(b, id, i, b.index[x].side, b.index[x].price);
      assert e in b.QueueAt(b.index[x].side, b.index[x].price);
      Holds(b, b.index[x].side, b.index[x].price, e);
      Holds(b', b.index[x].side, b.index[x].price, e);
    }
  }

  // ---------- one message ----------

  /** Where the indexed order stands in its queue. */
  ghost function Place(b: BookState, id: ExchangeOrderId): (i: nat)
    requires Linked(b) && id in b.index
    ensures StandsAt(b, id, i)
  {
    Stands(b, id);
    PositionOf(b.QueueAt(b.index[id].side, b.index[id].price), id)
  }

  lemma Stands(b: BookState, id: ExchangeOrderId)
    requires Linked(b) && id in b.index
    ensures var q := b.QueueAt(b.index[id].side, b.index[id].price);
            Queued(q, id) && StandsAt(b, id, PositionOf(q, id))
  {
    hide StandsAt;
    var i := Standing(b, id);
  }

  /** No order stands in two places. */
  lemma OnePlace(b: BookState, id: ExchangeOrderId, i: nat)
    requires Linked(b) && StandsAt(b, id, i)
    ensures i == Place(b, id)
  {
    hide Linked, StandsAt, BookState.QueueAt;
    StandingQueue(b, id, i);
    StandingQueue(b, id, Place(b, id));
  }

  /** The book without one of its orders. */
  ghost function Withdrawn(b: BookState, id: ExchangeOrderId): BookState
    requires Linked(b) && id in b.index
  {
    Erased(b, id, Place(b, id))
  }

  /** A book after one message for it, every queue included; a message it refuses changes nothing. */
  ghost function Heard(b: BookState, message: FeedMessage): BookState
    requires Linked(b)
  {
    match message
    case AddOrder(_, _, id, _, price, quantity, side) =>
      if price <= 0 || quantity == 0 || id in b.index then b else Inserted(b, side, id, price, quantity)
    case DeleteOrder(_, _, id, _) => if id in b.index then Withdrawn(b, id) else b
    case ModifyOrder(_, _, id, _, price, quantity) =>
      if price <= 0 || quantity == 0 || id !in b.index then b
      else Inserted(Withdrawn(b, id), b.index[id].side, id, price, quantity)
    case Trade(_, _, _, _, _, _) => b
    case ClearBook(_, _, _) => NO_DEPTH
  }

  /** Seen by order id, that is what the depth model says of the message. */
  lemma HeardContents(b: BookState, message: FeedMessage)
    requires Linked(b)
    ensures Linked(Heard(b, message)) && Contents(Heard(b, message)) == AppliedTo(Contents(b), message).depth
  {
    hide Linked, Contents, Inserted, Erased, StandsAt, BookState.QueueAt;
    ContentsKeys(b);
    match message
    case AddOrder(_, _, id, _, price, quantity, side) =>
      assert id in b.index <==> id in Contents(b).Keys;
      if price > 0 && quantity > 0 && id !in b.index {
        InsertContents(b, side, id, price, quantity);
      }
    case DeleteOrder(_, _, id, _) =>
      assert id in b.index <==> id in Contents(b).Keys;
      if id in b.index {
        EraseContents(b, id, Place(b, id));
      }
    case ModifyOrder(_, _, id, _, price, quantity) =>
      assert id in b.index <==> id in Contents(b).Keys;
      if price > 0 && quantity > 0 && id in b.index {
        EraseContents(b, id, Place(b, id));
        EraseIndex(b, id, Place(b, id));
        ContentsSide(b, id);
        InsertContents(Withdrawn(b, id), b.index[id].side, id, price, quantity);
        assert (Contents(b) - {id})[id := Quote(b.index[id].side, price, quantity)]
            == Contents(b)[id := Quote(b.index[id].side, price, quantity)];
      }
    case Trade(_, _, _, _, _, _) =>
    case ClearBook(_, _, _) => NothingLinked();
  }

  lemma NothingLinked()
    ensures Linked(NO_DEPTH) && Contents(NO_DEPTH) == map[]
  {
  }

  lemma ContentsSide(b: BookState, id: ExchangeOrderId)
    requires Linked(b) && id in b.index
    ensures id in Contents(b) && Contents(b)[id].side == b.index[id].side
  {
  }
}
