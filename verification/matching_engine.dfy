/** The engine as an object: books on a shelf, found by instrument id, and a directory of the handles under which live
    orders are kept. Proved to do, command by command, what MatchingModel.Process says. */
module MatchingEngines {
  import opened ExchangeTypes
  import opened MatchingModel
  import opened MatchingInvariants
  import opened MatchingTheorems
  import opened CommandTheorems
  import opened EngineSnapshots
  import opened RingIndexes
  import opened BookQueues
  import opened MatchingBooks

  const NO_SLOT: int := -1

  const MAX_BAND_TICKS: nat := 8192
  const MIN_BAND_TICKS: nat := 1024
  const LADDER_BYTE_BUDGET: nat := 0x80_0000
  const LEVEL_SLOT_BYTES: nat := 8

  /** The largest power of two not above n. */
  function BitFloor(n: nat): (p: nat)
    requires n > 0
    ensures PowerOfTwo(p) && p <= n < 2 * p
  {
    if n == 1 then 1 else 2 * BitFloor(n / 2)
  }

  lemma {:induction false} BitFloorMonotone(a: nat, b: nat)
    requires 0 < a <= b
    ensures BitFloor(a) <= BitFloor(b)
  {
    if a > 1 {
      BitFloorMonotone(a / 2, b / 2);
    }
  }

  lemma MinBandIsPower()
    ensures BitFloor(MIN_BAND_TICKS) == MIN_BAND_TICKS
  {
    assert BitFloor(4) == 4;
    assert BitFloor(16) == 16;
    assert BitFloor(64) == 64;
    assert BitFloor(256) == 256;
  }

  lemma WithinBudget(budget: nat, count: nat, share: nat, band: nat)
    requires count > 0 && share == budget / count && band <= share / 16
    ensures band * count * 16 <= budget
  {
    assert share * count <= budget;
    assert band * 16 <= share;
    assert band * count * 16 == (band * 16) * count <= share * count;
  }

  /** The widest band that many books can each afford two of, or zero if that is too narrow to be worth it. */
  function BandFor(instrumentCount: nat, byteBudget: nat): nat {
    if instrumentCount == 0 then MAX_BAND_TICKS
    else
      var ticks := byteBudget / instrumentCount / (2 * LEVEL_SLOT_BYTES);
      if ticks < MIN_BAND_TICKS then 0 else BitFloor(Min(ticks, MAX_BAND_TICKS))
  }

  /** A band is zero or a power of two within its limits, and two ladders of it per book fit the budget. */
  lemma BandIsAffordable(instrumentCount: nat, byteBudget: nat)
    requires instrumentCount > 0
    ensures var band := BandFor(instrumentCount, byteBudget);
            && (band == 0 || (MIN_BAND_TICKS <= band <= MAX_BAND_TICKS && PowerOfTwo(band)))
            && band * instrumentCount * (2 * LEVEL_SLOT_BYTES) <= byteBudget
  {
    var share := byteBudget / instrumentCount;
    BandFromShare(instrumentCount, byteBudget, share);
    hide BandFor;
    WithinBudget(byteBudget, instrumentCount, share, BandFor(instrumentCount, byteBudget));
  }

  lemma BandFromShare(instrumentCount: nat, byteBudget: nat, share: nat)
    requires instrumentCount > 0 && share == byteBudget / instrumentCount
    ensures var band := BandFor(instrumentCount, byteBudget);
            && band <= share / 16
            && (band == 0 || (MIN_BAND_TICKS <= band <= MAX_BAND_TICKS && PowerOfTwo(band)))
  {
    hide PowerOfTwo;
    MinBandIsPower();
    if share / 16 >= MIN_BAND_TICKS {
      BitFloorMonotone(MIN_BAND_TICKS, Min(share / 16, MAX_BAND_TICKS));
    }
  }

  lemma {:induction false} FloorOfPower(p: nat)
    requires PowerOfTwo(p)
    ensures p > 0 && BitFloor(p) == p
  {
    if p > 1 {
      FloorOfPower(p / 2);
    }
  }

  lemma ShareAllows(budget: nat, count: nat, p: nat)
    requires count > 0 && p * count * 16 <= budget
    ensures p <= budget / count / 16
  {
    DivideOut(budget, count, p * 16) by {
      assert p * count * 16 == p * 16 * count;
    }
  }

  lemma DivideOut(budget: nat, count: nat, n: nat)
    requires count > 0 && n * count <= budget
    ensures n <= budget / count
  {
    var q := budget / count;
    assert budget < (q + 1) * count;
    if n > q {
      ProductGrows(q + 1, n, count);
    }
  }

  lemma ProductGrows(m: nat, n: nat, count: nat)
    requires m <= n
    ensures m * count <= n * count
  {
    assert n * count == m * count + (n - m) * count;
  }

  /** No wider band within the limits would fit the budget. */
  lemma BandIsWidest(instrumentCount: nat, byteBudget: nat, p: nat)
    requires instrumentCount > 0 && PowerOfTwo(p) && MIN_BAND_TICKS <= p <= MAX_BAND_TICKS
    requires p * instrumentCount * (2 * LEVEL_SLOT_BYTES) <= byteBudget
    ensures p <= BandFor(instrumentCount, byteBudget)
  {
    hide BitFloor;
    ShareAllows(byteBudget, instrumentCount, p);
    FloorOfPower(p);
    BitFloorMonotone(p, Min(byteBudget / instrumentCount / 16, MAX_BAND_TICKS));
  }

  /** A directory entry: what no book stores of an order, and the handle of the order. */
  datatype EntryRef = EntryRef(originalQuantity: Quantity, orderSequence: nat, handle: nat, instrumentId: InstrumentId)

  /** The order each live handle names, book by book. */
  type Names = map<InstrumentId, map<nat, BookOrder>>

  ghost function Naming(named: map<nat, BookOrder>, handle: nat, order: BookOrder): map<nat, BookOrder> {
    named[handle := order]
  }

  /** The entry for key k locates, by handle, the order that the model's entry locates by exchange id. */
  ghost predicate EntryOk(orders: map<LiveKey, EntryRef>, names: Names, directory: map<LiveKey, OrderRef>, k: LiveKey) {
    && k in orders && k in directory
    && var entry, ref := orders[k], directory[k];
    && entry.originalQuantity == ref.originalQuantity
    && entry.orderSequence == ref.orderSequence
    && entry.instrumentId == ref.instrumentId
    && entry.instrumentId in names && entry.handle in names[entry.instrumentId]
    && names[entry.instrumentId][entry.handle].exchangeOrderId == ref.exchangeOrderId
  }

  ghost predicate DirectoryOk(orders: map<LiveKey, EntryRef>, names: Names, directory: map<LiveKey, OrderRef>) {
    orders.Keys == directory.Keys && forall k :: k in directory ==> EntryOk(orders, names, directory, k)
  }

  /** A handle whose order answers to one key is in no other key's entry. */
  lemma HandleHasOneKey(st: EngineState, orders: map<LiveKey, EntryRef>, names: Names, k: LiveKey, id: InstrumentId,
                        handle: nat, order: BookOrder)
    requires BooksOk(st) && DirectorySound(st) && DirectoryOk(orders, names, st.directory) && k in orders
    requires id in names && handle in names[id] && names[id][handle] == order && Rests(st, id, order)
    requires orders[k].instrumentId == id && orders[k].handle == handle
    ensures k == order.Key()
  {
    assert EntryOk(orders, names, st.directory, k);
    var o := EntryOrder(st, k);
    assert Rests(st, id, o);
  }

  lemma DirectoryAfterRemoval(st: EngineState, orders: map<LiveKey, EntryRef>, names: Names, id: InstrumentId,
                              handle: nat, removed: BookOrder)
    requires BooksOk(st) && DirectorySound(st) && DirectoryOk(orders, names, st.directory)
    requires id in names && handle in names[id] && names[id][handle] == removed && Rests(st, id, removed)
    ensures DirectoryOk(orders - {removed.Key()}, names[id := names[id] - {handle}], st.directory - {removed.Key()})
  {
    hide BooksOk, DirectorySound, Rests, BookOrder.Key;
    var orders', names' := orders - {removed.Key()}, names[id := names[id] - {handle}];
    forall k | k in st.directory && k != removed.Key()
      ensures EntryOk(orders', names', st.directory - {removed.Key()}, k)
    {
      assert EntryOk(orders, names, st.directory, k);
      if orders[k].instrumentId == id && orders[k].handle == handle {
        HandleHasOneKey(st, orders, names, k, id, handle, removed);
      }
    }
  }

  lemma DirectoryAfterEdit(orders: map<LiveKey, EntryRef>, names: Names, directory: map<LiveKey, OrderRef>,
                           id: InstrumentId, handle: nat, order: BookOrder)
    requires DirectoryOk(orders, names, directory)
    requires id in names && handle in names[id] && names[id][handle].exchangeOrderId == order.exchangeOrderId
    ensures DirectoryOk(orders, names[id := Naming(names[id], handle, order)], directory)
  {
    var names' := names[id := Naming(names[id], handle, order)];
    forall k | k in directory ensures EntryOk(orders, names', directory, k) {
      assert EntryOk(orders, names, directory, k);
    }
  }

  lemma DirectoryAfterFiling(orders: map<LiveKey, EntryRef>, names: Names, directory: map<LiveKey, OrderRef>,
                             id: InstrumentId, handle: nat, order: BookOrder, originalQuantity: Quantity,
                             orderSequence: nat)
    requires DirectoryOk(orders, names, directory)
    requires id in names && handle !in names[id]
    ensures DirectoryOk(orders[order.Key() := EntryRef(originalQuantity, orderSequence, handle, id)],
                        names[id := Naming(names[id], handle, order)],
                        directory[order.Key() := OrderRef(originalQuantity, orderSequence, order.exchangeOrderId, id)])
  {
    var k0 := order.Key();
    var orders' := orders[k0 := EntryRef(originalQuantity, orderSequence, handle, id)];
    var directory' := directory[k0 := OrderRef(originalQuantity, orderSequence, order.exchangeOrderId, id)];
    var names' := names[id := Naming(names[id], handle, order)];
    forall k | k in directory' ensures EntryOk(orders', names', directory', k) {
      assert k != k0 ==> EntryOk(orders, names, directory, k);
    }
  }

  /** One entry moves from its key to another. */
  lemma DirectoryAfterRekeying(orders: map<LiveKey, EntryRef>, names: Names, directory: map<LiveKey, OrderRef>,
                               k: LiveKey, k': LiveKey)
    requires DirectoryOk(orders, names, directory) && k in orders
    ensures k in directory
    ensures DirectoryOk((orders - {k})[k' := orders[k]], names, (directory - {k})[k' := directory[k]])
  {
    assert k in orders.Keys;
    var orders', directory' := (orders - {k})[k' := orders[k]], (directory - {k})[k' := directory[k]];
    forall x | x in directory' ensures EntryOk(orders', names, directory', x) {
      assert EntryOk(orders, names, directory, if x == k' then k else x);
    }
  }

  /** Edited where it stands and filed under another key. */
  lemma DirectoryAfterRename(orders: map<LiveKey, EntryRef>, names: Names, directory: map<LiveKey, OrderRef>,
                             id: InstrumentId, handle: nat, order: BookOrder, k: LiveKey, k': LiveKey)
    requires DirectoryOk(orders, names, directory) && k in orders
    requires id in names && handle in names[id] && names[id][handle].exchangeOrderId == order.exchangeOrderId
    ensures k in directory
    ensures DirectoryOk((orders - {k})[k' := orders[k]], names[id := Naming(names[id], handle, order)],
                        (directory - {k})[k' := directory[k]])
  {
    hide DirectoryOk;
    DirectoryAfterEdit(orders, names, directory, id, handle, order);
    DirectoryAfterRekeying(orders, names[id := Naming(names[id], handle, order)], directory, k, k');
  }

  // ---------- what one book operation does to the orders its handles name ----------

  method FileOrder(book: MatchingBook, order: BookOrder) returns (handle: nat)
    requires book.Valid()
    modifies book.Repr
    ensures book.Valid() && fresh(book.Repr - old(book.Repr))
    ensures book.View() == old(book.View()).With(order.side, Insert(old(book.View()).Orders(order.side), order))
    ensures handle !in old(book.Named()) && book.Named() == old(book.Named())[handle := order]
  {
    hide MatchingBook.Valid, MatchingBook.View, MatchingBook.QueuesOf, MatchingBook.SlotsOf, Insert, NamedOn, Queued,
         InSlab, Orders, LiveInSlab, KeepsOrders;
    handle := book.Add(order);
    NamesGrow(old(book.slab), old(book.live), book.slab, handle);
  }

  method TakeOrder(book: MatchingBook, handle: nat) returns (removed: BookOrder, ghost j: nat)
    requires book.Valid() && handle in book.Named()
    modifies book.Repr
    ensures book.Valid() && book.Repr == old(book.Repr)
    ensures removed == old(book.Named())[handle] && book.Named() == old(book.Named()) - {handle}
    ensures var s := old(book.View()).Orders(removed.side);
            && j < |s| && s[j] == removed
            && book.View() == old(book.View()).With(removed.side, WithoutAt(s, j))
  {
    hide MatchingBook.Valid, MatchingBook.View, WithoutAt, NamedOn, SameOrders;
    NamedIsLive(book, handle);
    book.AtStands(handle);
    j := book.Position(handle);
    removed := book.RemoveAt(handle);
    NamesShrink(old(book.slab), old(book.live), book.slab, handle);
  }

  lemma NamedIsLive(book: MatchingBook, handle: nat)
    requires book.Valid() && handle in book.Named()
    ensures handle in book.live
  {
  }

  lemma EditedTwice(v: BookView, v': BookView, v'': BookView, side: Side, slots: seq<nat>, slot: nat, j: nat,
                    order: BookOrder, order': BookOrder)
    requires EditedAt(v, v', side, slots, slot, order) && EditedAt(v', v'', side, slots, slot, order')
    requires j < |slots| && slots[j] == slot
    ensures j < |v.Orders(side)| && v'' == v.With(side, v.Orders(side)[j := order'])
  {
  }

  /** The priority-keeping replace: a new quantity, then a new client order id, in place. */
  method RenameOrder(book: MatchingBook, handle: nat, newRemainingQuantity: Quantity, newClientOrderId: ClientOrderId)
    returns (ghost j: nat)
    requires book.Valid() && handle in book.Named()
    modifies book.Repr
    ensures book.Valid() && book.Repr == old(book.Repr)
    ensures var prior := old(book.Named())[handle];
            var s := old(book.View()).Orders(prior.side);
            var edited := prior.(remainingQuantity := newRemainingQuantity, clientOrderId := newClientOrderId);
            && j < |s| && s[j] == prior
            && book.View() == old(book.View()).With(prior.side, s[j := edited])
            && book.Named() == old(book.Named())[handle := edited]
  {
    hide MatchingBook.Valid, MatchingBook.View, MatchingBook.SlotsOf, NamedOn, InSlab, Orders, EditedAt;
    NamedIsLive(book, handle);
    book.AtStands(handle);
    j := book.Position(handle);
    ghost var prior := book.slab[handle].order;
    NamesEdit(book.slab, book.live, handle, prior.(remainingQuantity := newRemainingQuantity));
    book.ReduceAt(handle, newRemainingQuantity);
    ghost var reduced := prior.(remainingQuantity := newRemainingQuantity);
    ghost var between := book.View();
    NamesEdit(book.slab, book.live, handle, reduced.(clientOrderId := newClientOrderId));
    book.SetClientOrderIdAt(handle, newClientOrderId);
    EditedTwice(old(book.View()), between, book.View(), prior.side, book.SlotsOf(prior.side), handle, j, reduced,
                reduced.(clientOrderId := newClientOrderId));
  }

  method PopFront(book: MatchingBook, side: Side) returns (ghost head: nat)
    requires book.Valid() && book.View().Orders(side) != []
    modifies book.Repr
    ensures book.Valid() && book.Repr == old(book.Repr)
    ensures var s := old(book.View()).Orders(side);
            && book.View() == old(book.View()).With(side, s[1..])
            && head in old(book.Named()) && old(book.Named())[head] == s[0]
            && book.Named() == old(book.Named()) - {head}
  {
    hide MatchingBook.Valid, MatchingBook.View, NamedOn, SameOrders;
    book.FrontSlot(side);
    head := book.SlotsOf(side)[0];
    book.RemoveFront(side);
    NamesShrink(old(book.slab), old(book.live), book.slab, head);
  }

  method TrimFront(book: MatchingBook, side: Side, newRemainingQuantity: Quantity) returns (ghost head: nat)
    requires book.Valid() && book.View().Orders(side) != []
    modifies book.Repr
    ensures book.Valid() && book.Repr == old(book.Repr)
    ensures var s := old(book.View()).Orders(side); var o' := s[0].(remainingQuantity := newRemainingQuantity);
            && book.View() == old(book.View()).With(side, s[0 := o'])
            && head in old(book.Named()) && old(book.Named())[head] == s[0]
            && book.Named() == old(book.Named())[head := o']
  {
    hide MatchingBook.Valid, MatchingBook.View, NamedOn;
    book.FrontSlot(side);
    head := book.SlotsOf(side)[0];
    NamesEdit(book.slab, book.live, head, book.slab[head].order.(remainingQuantity := newRemainingQuantity));
    book.ReduceFront(side, newRemainingQuantity);
  }

  class MatchingEngine {
    var slotOfId: seq<int>
    var books: seq<MatchingBook>
    var byId: seq<(InstrumentId, nat)>
    var bandTicks: nat
    var orders: map<LiveKey, EntryRef>
    var nextExchangeOrderId: nat
    var nextEventSequence: nat
    var nextPriority: nat

    /** The engine as MatchingModel sees it. */
    ghost var State: EngineState
    ghost var Repr: set<object>

    predicate KnowsInstrument(id: InstrumentId)
      reads this`slotOfId
    {
      id < |slotOfId| && slotOfId[id] != NO_SLOT
    }

    /** The registry: ids map one-to-one onto book positions. */
    ghost predicate RegistryOk()
      reads this`slotOfId, this`books
    {
      && (forall id: nat :: KnowsInstrument(id) ==> 0 <= slotOfId[id] < |books|)
      && (forall id: nat, id': nat :: KnowsInstrument(id) && KnowsInstrument(id') && slotOfId[id] == slotOfId[id']
            ==> id == id')
    }

    function BookFor(id: InstrumentId): MatchingBook
      requires RegistryOk() && KnowsInstrument(id)
      reads this`slotOfId, this`books
    {
      books[slotOfId[id]]
    }

    /** Every book is valid, and no two share anything. */
    ghost predicate BooksValid()
      reads this`books, this`Repr, Repr - {this}
    {
      && this in Repr
      && (forall i :: 0 <= i < |books| ==> books[i] in Repr)
      && (forall i :: 0 <= i < |books| ==> books[i].Repr <= Repr && this !in books[i].Repr)
      && (forall i, j :: 0 <= i < j < |books| ==> books[i].Repr !! books[j].Repr)
      && (forall i :: 0 <= i < |books| ==> books[i].Valid())
    }

    ghost predicate ShelfOk()
      reads this`slotOfId, this`books, this`Repr, Repr - {this}
    {
      RegistryOk() && BooksValid()
    }

    /** What each registered instrument's book holds. */
    ghost function Views(): map<InstrumentId, BookView>
      requires ShelfOk()
      reads this`slotOfId, this`books, this`Repr, Repr - {this}
    {
      map id: nat | id < |slotOfId| && KnowsInstrument(id) :: BookFor(id).View()
    }

    /** The order each live handle names, book by book. */
    ghost function Named(): Names
      requires ShelfOk()
      reads this`slotOfId, this`books, this`Repr, Repr - {this}
    {
      map id: nat | id < |slotOfId| && KnowsInstrument(id) :: BookFor(id).Named()
    }

    lemma ShelfReads(id: InstrumentId)
      requires ShelfOk()
      ensures id in Views() <==> KnowsInstrument(id)
      ensures id in Named() <==> KnowsInstrument(id)
      ensures KnowsInstrument(id) ==> Views()[id] == BookFor(id).View() && Named()[id] == BookFor(id).Named()
    {
      hide MatchingBook.Valid, MatchingBook.View, MatchingBook.Named;
    }

    // ---------- one book operation at a time ----------

    /** A book none of whose objects changed is the same book. */
    static twostate lemma Untouched(b: MatchingBook)
      requires old(b.Valid()) && unchanged(old(b.Repr))
      ensures b.Valid() && b.View() == old(b.View())
      ensures b.Named() == old(b.Named()) && b.Repr == old(b.Repr)
    {
    }

    /** Book number i was operated on; every other book is as it was. */
    twostate predicate OnlyBookChanged(i: int)
      requires old(ShelfOk())
      reads *
    {
      && books == old(books) && slotOfId == old(slotOfId) && 0 <= i < |books|
      && Repr == old(Repr) + books[i].Repr && fresh(books[i].Repr - old(books[i].Repr))
      && books[i].Valid()
      && (forall j :: 0 <= j < |books| && j != i ==> BookUnchanged(books[j]))
    }

    static twostate predicate BookUnchanged(b: MatchingBook)
      requires old(b.Valid())
      reads *
    {
      b.Valid() && b.View() == old(b.View()) && b.Named() == old(b.Named()) && b.Repr == old(b.Repr)
    }

    twostate lemma ShelfStays(i: int)
      requires old(ShelfOk()) && OnlyBookChanged(i)
      ensures ShelfOk()
    {
      hide MatchingBook.Valid, MatchingBook.View;
    }

    twostate lemma ViewsChange(id: InstrumentId)
      requires old(ShelfOk()) && KnowsInstrument(id) && OnlyBookChanged(slotOfId[id])
      ensures ShelfOk() && Views() == old(Views())[id := BookFor(id).View()]
    {
      hide MatchingBook.Valid, MatchingBook.View;
      ShelfStays(slotOfId[id]);
    }

    twostate lemma NamesChange(id: InstrumentId)
      requires old(ShelfOk()) && KnowsInstrument(id) && OnlyBookChanged(slotOfId[id])
      ensures ShelfOk() && Named() == old(Named())[id := BookFor(id).Named()]
    {
      hide MatchingBook.Valid, MatchingBook.View;
      ShelfStays(slotOfId[id]);
    }

    twostate predicate OthersLeftAlone(book: MatchingBook)
      reads *
    {
      forall o :: o in old(Repr) && o !in old(book.Repr) && o != this ==> unchanged(o)
    }

    twostate lemma OthersUnchanged(i: int)
      requires old(ShelfOk()) && 0 <= i < |old(books)|
      requires books == old(books) && slotOfId == old(slotOfId)
      requires var book := old(books[i]);
               && Repr == old(Repr) + book.Repr && fresh(book.Repr - old(book.Repr)) && book.Valid()
               && OthersLeftAlone(book)
      ensures OnlyBookChanged(i)
    {
      hide MatchingBook.Valid, MatchingBook.View;
      forall j | 0 <= j < |books| && j != i ensures BookUnchanged(books[j]) {
        Untouched(books[j]);
      }
    }


    /** What an operation on one instrument's book means for the engine: that book's view and names change,
        and no other's. */
    twostate lemma BookOperated(id: InstrumentId)
      requires old(ShelfOk()) && old(KnowsInstrument(id))
      requires books == old(books) && slotOfId == old(slotOfId)
      requires var book := old(BookFor(id));
               && Repr == old(Repr) + book.Repr && fresh(book.Repr - old(book.Repr)) && book.Valid()
               && OthersLeftAlone(book)
      ensures ShelfOk()
      ensures Views() == old(Views())[id := BookFor(id).View()]
      ensures Named() == old(Named())[id := BookFor(id).Named()]
    {
      hide MatchingBook.Valid, MatchingBook.View, MatchingBook.Named, BooksValid, Views, Named;
      OthersUnchanged(slotOfId[id]);
      ViewsChange(id);
      NamesChange(id);
    }

    lemma BookStandsApart(id: InstrumentId)
      requires ShelfOk() && KnowsInstrument(id)
      ensures var book := BookFor(id);
              && book.Valid() && book in Repr && book.Repr <= Repr && this !in book.Repr
              && id in Views() && Views()[id] == book.View()
              && id in Named() && Named()[id] == book.Named()
    {
      hide MatchingBook.Valid, MatchingBook.View, MatchingBook.Named;
      ShelfReads(id);
    }

    method AddTo(id: InstrumentId, order: BookOrder) returns (handle: nat)
      requires ShelfOk() && KnowsInstrument(id)
      modifies this`Repr, BookFor(id).Repr
      ensures ShelfOk() && fresh(Repr - old(Repr))
      ensures Views() == old(Views())[id := old(Views()[id]).With(order.side,
                           Insert(old(Views()[id]).Orders(order.side), order))]
      ensures handle !in old(Named()[id]) && Named() == old(Named())[id := Naming(old(Named()[id]), handle, order)]
    {
      hide MatchingBook.Valid, MatchingBook.View, MatchingBook.Named, Insert, Views, Named, BooksValid;
      BookStandsApart(id);
      var book := BookFor(id);
      handle := FileOrder(book, order);
      Repr := Repr + book.Repr;
      BookOperated(id);
    }

    /** Removes a live order; `removed` is what its handle named. */
    method RemoveFrom(id: InstrumentId, handle: nat) returns (removed: BookOrder, ghost j: nat)
      requires ShelfOk() && KnowsInstrument(id) && handle in Named()[id]
      modifies this`Repr, BookFor(id).Repr
      ensures ShelfOk() && fresh(Repr - old(Repr)) && removed == old(Named()[id])[handle]
      ensures var s := old(Views()[id]).Orders(removed.side);
              && j < |s| && s[j] == removed
              && Views() == old(Views())[id := old(Views()[id]).With(removed.side, WithoutAt(s, j))]
      ensures Named() == old(Named())[id := old(Named()[id]) - {handle}]
    {
      hide MatchingBook.Valid, MatchingBook.View, MatchingBook.Named, WithoutAt, Views, Named, BooksValid;
      BookStandsApart(id);
      removed, j := TakeOrder(BookFor(id), handle);
      BookOperated(id);
    }

    method EditIn(id: InstrumentId, handle: nat, newRemainingQuantity: Quantity, newClientOrderId: ClientOrderId)
      returns (ghost j: nat)
      requires ShelfOk() && KnowsInstrument(id) && handle in Named()[id]
      modifies this`Repr, BookFor(id).Repr
      ensures ShelfOk() && fresh(Repr - old(Repr))
      ensures var prior := old(Named()[id])[handle];
              var s := old(Views()[id]).Orders(prior.side);
              var edited := prior.(remainingQuantity := newRemainingQuantity, clientOrderId := newClientOrderId);
              && j < |s| && s[j] == prior
              && Views() == old(Views())[id := old(Views()[id]).With(prior.side, s[j := edited])]
              && Named() == old(Named())[id := Naming(old(Named()[id]), handle, edited)]
    {
      hide MatchingBook.Valid, MatchingBook.View, MatchingBook.Named, Views, Named, BooksValid;
      BookStandsApart(id);
      j := RenameOrder(BookFor(id), handle, newRemainingQuantity, newClientOrderId);
      BookOperated(id);
    }

    method RemoveFrontOf(id: InstrumentId, side: Side) returns (ghost head: nat)
      requires ShelfOk() && KnowsInstrument(id) && Views()[id].Orders(side) != []
      modifies this`Repr, BookFor(id).Repr
      ensures ShelfOk() && fresh(Repr - old(Repr))
      ensures var s := old(Views()[id]).Orders(side);
              && Views() == old(Views())[id := old(Views()[id]).With(side, s[1..])]
              && head in old(Named()[id]) && old(Named()[id])[head] == s[0]
              && Named() == old(Named())[id := old(Named()[id]) - {head}]
    {
      hide MatchingBook.Valid, MatchingBook.View, MatchingBook.Named, Views, Named, BooksValid;
      BookStandsApart(id);
      head := PopFront(BookFor(id), side);
      BookOperated(id);
    }

    method ReduceFrontOf(id: InstrumentId, side: Side, newRemainingQuantity: Quantity) returns (ghost head: nat)
      requires ShelfOk() && KnowsInstrument(id) && Views()[id].Orders(side) != []
      modifies this`Repr, BookFor(id).Repr
      ensures ShelfOk() && fresh(Repr - old(Repr))
      ensures var s := old(Views()[id]).Orders(side); var o' := s[0].(remainingQuantity := newRemainingQuantity);
              && Views() == old(Views())[id := old(Views()[id]).With(side, s[0 := o'])]
              && head in old(Named()[id]) && old(Named()[id])[head] == s[0]
              && Named() == old(Named())[id := Naming(old(Named()[id]), head, o')]
    {
      hide MatchingBook.Valid, MatchingBook.View, MatchingBook.Named, Views, Named, BooksValid;
      BookStandsApart(id);
      head := TrimFront(BookFor(id), side, newRemainingQuantity);
      BookOperated(id);
    }

    // ---------- the engine's own invariant ----------

    /** The engine's fields hold exactly what State says, orders being located by handle instead of by id. */
    ghost predicate Synced()
      reads this`slotOfId, this`books, this`orders, this`nextExchangeOrderId, this`nextEventSequence,
            this`nextPriority, this`State, this`Repr, Repr - {this}
    {
      && ShelfOk()
      && State.books == Views()
      && DirectoryOk(orders, Named(), State.directory)
      && nextExchangeOrderId == State.nextExchangeOrderId
      && nextEventSequence == State.nextEventSequence
      && nextPriority == State.nextPriority
    }

    /** The registry by ascending instrument id, for snapshots. */
    ghost predicate ByIdOk()
      reads this`slotOfId, this`byId
    {
      && (forall i, j :: 0 <= i < j < |byId| ==> byId[i].0 < byId[j].0)
      && (forall i :: 0 <= i < |byId| ==> KnowsInstrument(byId[i].0) && slotOfId[byId[i].0] == byId[i].1)
      && (forall id: nat :: KnowsInstrument(id) ==> ListedById(id))
    }

    ghost predicate ListedById(id: InstrumentId)
      reads this`byId
    {
      exists i :: 0 <= i < |byId| && byId[i].0 == id
    }

    ghost predicate Valid()
      reads this, Repr
    {
      this in Repr && Synced() && WellFormed(State) && ByIdOk() && bandTicks <= MAX_BAND_TICKS
    }

    twostate predicate SameRegistry()
      reads this
    {
      && slotOfId == old(slotOfId) && books == old(books) && byId == old(byId) && bandTicks == old(bandTicks)
    }

    lemma SyncedShelf(id: InstrumentId)
      requires Synced() && KnowsInstrument(id)
      ensures this in Repr && ShelfOk() && id in State.books && State.books[id] == BookFor(id).View() == Views()[id]
      ensures BookFor(id).Valid() && BookFor(id) in Repr && BookFor(id).Repr <= Repr && this !in BookFor(id).Repr
      ensures id in Named() && Named()[id] == BookFor(id).Named()
    {
      hide MatchingBook.Valid, MatchingBook.View, DirectoryOk;
    }

    // ---------- matching ----------

    method TakeEventSequence() returns (n: nat)
      requires Synced()
      modifies this`nextEventSequence, this`State
      ensures Synced() && n == old(State).nextEventSequence
      ensures State == old(State).(nextEventSequence := n + 1)
    {
      hide ShelfOk, Views, Named, DirectoryOk;
      n := nextEventSequence;
      nextEventSequence := n + 1;
      State := State.(nextEventSequence := n + 1);
    }

    /** remove_front, and the directory entry with it. */
    method EraseFront(id: InstrumentId, side: Side, front: BookOrder)
      requires Synced() && WellFormed(State) && KnowsInstrument(id) && id in State.books
      requires State.books[id].Orders(side) != [] && State.books[id].Orders(side)[0] == front
      modifies this`orders, this`State, this`Repr, BookFor(id).Repr
      ensures Synced() && fresh(Repr - old(Repr)) && SameRegistry()
      ensures State == var st := old(State);
                st.(books := st.books[id := st.books[id].With(side, st.books[id].Orders(side)[1..])],
                    directory := st.directory - {front.Key()})
    {
      hide MatchingBook.Valid, MatchingBook.View, MatchingBook.Named, Views, Named, BooksValid, DirectoryOk, WellFormed,
           BooksOk, DirectorySound, Rests, BookOrder.Key, BookView.With, ShelfOk;
      SyncedShelf(id);
      FrontRests(State, id, side);
      ghost var st, names := State, Named();
      ghost var head := RemoveFrontOf(id, side);
      DirectoryAfterRemoval(st, orders, names, id, head, front);
      orders := orders - {front.Key()};
      State := st.(books := st.books[id := st.books[id].With(side, st.books[id].Orders(side)[1..])],
                   directory := st.directory - {front.Key()});
    }

    method LowerFront(id: InstrumentId, side: Side, newRemainingQuantity: Quantity)
      requires Synced() && WellFormed(State) && KnowsInstrument(id) && id in State.books
      requires State.books[id].Orders(side) != []
      modifies this`State, this`Repr, BookFor(id).Repr
      ensures Synced() && fresh(Repr - old(Repr)) && SameRegistry()
      ensures State == var st := old(State); var s := st.books[id].Orders(side);
                st.(books := st.books[id :=
                  st.books[id].With(side, s[0 := s[0].(remainingQuantity := newRemainingQuantity)])])
    {
      hide MatchingBook.Valid, MatchingBook.View, MatchingBook.Named, Views, Named, BooksValid, DirectoryOk, WellFormed;
      SyncedShelf(id);
      ghost var st, names := State, Named();
      ghost var s := State.books[id].Orders(side);
      ghost var head := ReduceFrontOf(id, side, newRemainingQuantity);
      DirectoryAfterEdit(orders, names, st.directory, id, head, s[0].(remainingQuantity := newRemainingQuantity));
      State := st.(books := st.books[id :=
        st.books[id].With(side, s[0 := s[0].(remainingQuantity := newRemainingQuantity)])]);
    }

    /** One turn of the matching loop. */
    method FillFront(incoming: RestingOrder, front: BookOrder, commandSequence: nat)
      returns (incoming': RestingOrder, events: seq<Event>)
      requires Synced() && WellFormed(State) && KnowsInstrument(incoming.instrumentId)
      requires incoming.instrumentId in State.books && CanFill(State, incoming)
      requires front == Contra(State, incoming)[0]
      modifies Repr
      ensures Synced() && WellFormed(State) && SameRegistry() && fresh(Repr - old(Repr))
      ensures MatchResult(State, incoming', events) == FillOnce(old(State), incoming, commandSequence)
    {
      hide Synced, WellFormed, DirectoryComplete, MatchingBook.Valid, Views, ShelfOk, RegistryOk;
      SyncedShelf(incoming.instrumentId);
      FillOnceKeeps(State, incoming, commandSequence);
      var contraSide := incoming.side.Opposite();
      var quantity := Min(incoming.remainingQuantity, front.remainingQuantity);
      incoming' := incoming.(remainingQuantity := incoming.remainingQuantity - quantity);
      var contraRemainingAfter := front.remainingQuantity - quantity;
      var aggressor := Counterparty(incoming.accountId, incoming.clientOrderId, incoming.exchangeOrderId,
                                    incoming'.remainingQuantity);
      var resting := Counterparty(front.accountId, front.clientOrderId, front.exchangeOrderId, contraRemainingAfter);
      var first := TakeEventSequence();
      CountersKeep(old(State), State);
      var trade := TradeExecuted(first, commandSequence, incoming.instrumentId, front.price, quantity, incoming.side,
                                 if incoming.side.Buy? then aggressor else resting,
                                 if incoming.side.Buy? then resting else aggressor);
      if contraRemainingAfter == 0 {
        EraseFront(incoming.instrumentId, contraSide, front);
        var second := TakeEventSequence();
        events := [trade, BookOrderRemoved(second, incoming.instrumentId, front.exchangeOrderId, front.side,
                                           front.price)];
      } else {
        LowerFront(incoming.instrumentId, contraSide, contraRemainingAfter);
        var second := TakeEventSequence();
        events := [trade, BookOrderReduced(second, incoming.instrumentId, front.exchangeOrderId, front.side,
                                           front.price, contraRemainingAfter)];
      }
    }

    method FrontOf(id: InstrumentId, side: Side) returns (front: Option<BookOrder>)
      requires Synced() && KnowsInstrument(id) && id in State.books
      ensures front == var s := State.books[id].Orders(side); if s == [] then None else Some(s[0])
    {
      hide MatchingBook.Valid, MatchingBook.View, MatchingBook.Named, Views, Named, BooksValid, DirectoryOk;
      SyncedShelf(id);
      front := BookFor(id).FrontOfBest(side);
    }

    /** The matching loop: trades with the front order of the other side while the prices cross. */
    method MatchIncoming(order: RestingOrder, commandSequence: nat) returns (incoming: RestingOrder, events: seq<Event>)
      requires Synced() && WellFormed(State) && KnowsInstrument(order.instrumentId)
      requires order.instrumentId in State.books
      modifies Repr
      ensures Synced() && WellFormed(State) && SameRegistry() && fresh(Repr - old(Repr))
      ensures MatchResult(State, incoming, events) == MatchLoop(old(State), order, commandSequence)
    {
      hide Synced, WellFormed, FillOnce, MatchLoop, MatchingBook.Valid, MatchingBook.View, ShelfOk;
      incoming, events := order, [];
      var contraSide := order.side.Opposite();
      SyncedRepr();
      while incoming.remainingQuantity > 0
        invariant Synced() && WellFormed(State) && SameRegistry() && fresh(Repr - old(Repr))
        invariant incoming.instrumentId == order.instrumentId && incoming.side == order.side
        invariant incoming.instrumentId in State.books
        invariant var rest := MatchLoop(State, incoming, commandSequence);
                  MatchLoop(old(State), order, commandSequence) == rest.(events := events + rest.events)
        decreases |Contra(State, incoming)|, incoming.remainingQuantity
      {
        var contra := FrontOf(incoming.instrumentId, contraSide);
        if contra.None? || !Crosses(incoming.side, incoming.price, contra.value.price) {
          MatchEnds(State, incoming, commandSequence);
          return;
        }
        MatchUnrolls(State, incoming, commandSequence, events);
        var incoming', fill := FillFront(incoming, contra.value, commandSequence);
        incoming, events := incoming', events + fill;
      }
      MatchEnds(State, incoming, commandSequence);
    }

    // ---------- the book and the directory together ----------

    /** remove_at, and the directory entry with it. */
    method EraseOrder(key: LiveKey) returns (removed: BookOrder)
      requires Synced() && WellFormed(State) && Locates(State) && key in orders
      modifies Repr
      ensures Synced() && fresh(Repr - old(Repr)) && SameRegistry()
      ensures key in old(State).directory && removed.Key() == key
      ensures var st := old(State); var id, x := st.directory[key].instrumentId, st.directory[key].exchangeOrderId;
              && removed == st.books[id].Find(x)
              && State == st.(books := st.books[id := st.books[id].Without(x)], directory := st.directory - {key})
    {
      hide MatchingBook.Valid, MatchingBook.View, MatchingBook.Named, Views, Named, BooksValid, DirectoryOk, WellFormed,
           BooksOk, DirectorySound, Rests, BookOrder.Key, WithoutAt, Locates;
      var ref := orders[key];
      EntryLocates(key);
      ghost var st, names, id := State, Named(), ref.instrumentId;
      ghost var x := st.directory[key].exchangeOrderId;
      SyncedShelf(id);
      ghost var j;
      removed, j := RemoveFrom(ref.instrumentId, ref.handle);
      LocatedAt(st, key, removed, j);
      DirectoryAfterRemoval(st, orders, names, id, ref.handle, removed);
      orders := orders - {key};
      State := st.(books := st.books[id := st.books[id].Without(x)], directory := st.directory - {key});
    }

    /** A directory entry's handle is live, on the instrument the model's entry names. */
    lemma EntryLocates(key: LiveKey)
      requires Synced() && key in orders
      ensures key in State.directory && KnowsInstrument(orders[key].instrumentId)
      ensures var ref, entry := State.directory[key], orders[key];
              && ref == OrderRef(entry.originalQuantity, entry.orderSequence, ref.exchangeOrderId, entry.instrumentId)
              && entry.instrumentId in Named() && entry.handle in Named()[entry.instrumentId]
              && Named()[entry.instrumentId][entry.handle].exchangeOrderId == ref.exchangeOrderId
    {
      hide MatchingBook.Valid, MatchingBook.View, MatchingBook.Named, Views, Named, BooksValid;
      assert key in orders.Keys;
      assert EntryOk(orders, Named(), State.directory, key);
      ShelfReads(orders[key].instrumentId);
    }

    lemma SyncedRepr()
      requires Synced()
      ensures this in Repr
    {
    }

    /** The in-place edit: a new quantity and a new client order id, the entry re-keyed. */
    method RenameEntry(key: LiveKey, newRemainingQuantity: Quantity, newClientOrderId: ClientOrderId)
      requires Synced() && WellFormed(State) && Locates(State) && key in orders
      modifies Repr
      ensures Synced() && fresh(Repr - old(Repr)) && SameRegistry()
      ensures key in old(State).directory
      ensures var st := old(State); var id, x := st.directory[key].instrumentId, st.directory[key].exchangeOrderId;
              var edited := st.books[id].Find(x).(remainingQuantity := newRemainingQuantity,
                                                  clientOrderId := newClientOrderId);
              State == st.(books := st.books[id := st.books[id].Replacing(x, edited)],
                           directory := (st.directory - {key})[LiveKey(key.accountId, newClientOrderId) :=
                             st.directory[key]])
    {
      hide MatchingBook.Valid, MatchingBook.View, MatchingBook.Named, Views, Named, BooksValid, DirectoryOk, WellFormed,
           BooksOk, DirectorySound, Rests, BookOrder.Key, Locates, BookView.Replacing, BookView.With, BookView.Orders,
           BookView.Find, BookView.Holds, Naming, ShelfOk;
      var ref := orders[key];
      EntryLocates(key);
      ghost var st, names, id := State, Named(), ref.instrumentId;
      ghost var x := st.directory[key].exchangeOrderId;
      SyncedShelf(id);
      ghost var prior: BookOrder := names[id][ref.handle];
      ghost var edited := prior.(remainingQuantity := newRemainingQuantity, clientOrderId := newClientOrderId);
      ghost var key' := LiveKey(key.accountId, newClientOrderId);
      ghost var j := EditIn(ref.instrumentId, ref.handle, newRemainingQuantity, newClientOrderId);
      LocatedEdit(st, key, prior, j, edited);
      DirectoryAfterRename(orders, names, st.directory, id, ref.handle, edited, key, key');
      orders := (orders - {key})[LiveKey(key.accountId, newClientOrderId) := ref];
      State := st.(books := st.books[id := st.books[id].Replacing(x, edited)],
                   directory := (st.directory - {key})[key' := st.directory[key]]);
    }

    /** add, and the directory entry with it. */
    method FileEntry(order: RestingOrder)
      requires Synced() && KnowsInstrument(order.instrumentId) && order.instrumentId in State.books
      modifies Repr
      ensures Synced() && fresh(Repr - old(Repr)) && SameRegistry()
      ensures var st, id := old(State), order.instrumentId; var book := st.books[id];
              State == st.(books := st.books[id := book.With(order.side,
                             Insert(book.Orders(order.side), order.ToBookOrder()))],
                           directory := st.directory[order.Key() :=
                             OrderRef(order.originalQuantity, order.orderSequence, order.exchangeOrderId, id)])
    {
      hide MatchingBook.Valid, MatchingBook.View, MatchingBook.Named, Views, Named, BooksValid, DirectoryOk, Insert;
      ghost var st, names, id := State, Named(), order.instrumentId;
      SyncedShelf(id);
      var handle := AddTo(order.instrumentId, order.ToBookOrder());
      DirectoryAfterFiling(orders, names, st.directory, id, handle, order.ToBookOrder(), order.originalQuantity,
                           order.orderSequence);
      orders := orders[order.Key() := EntryRef(order.originalQuantity, order.orderSequence, handle,
                                               order.instrumentId)];
      ghost var book := st.books[id];
      State := st.(books := st.books[id := book.With(order.side, Insert(book.Orders(order.side), order.ToBookOrder()))],
                   directory := st.directory[order.Key() :=
                     OrderRef(order.originalQuantity, order.orderSequence, order.exchangeOrderId, id)]);
    }

    method RestRemainderIfApplicable(order: RestingOrder) returns (events: seq<Event>)
      requires Synced() && KnowsInstrument(order.instrumentId) && order.instrumentId in State.books
      modifies Repr
      ensures Synced() && fresh(Repr - old(Repr)) && SameRegistry()
      ensures StepResult(State, events) == RestRemainder(old(State), order)
    {
      hide Synced, Insert;
      SyncedRepr();
      if order.timeInForce != GTC || order.remainingQuantity == 0 {
        return [];
      }
      FileEntry(order);
      var n := TakeEventSequence();
      events := [BookOrderAdded(n, order.instrumentId, order.exchangeOrderId, order.side, order.price,
                                order.remainingQuantity)];
    }

    // ---------- commands ----------

    lemma SyncedKnows(id: InstrumentId)
      requires Synced()
      ensures this in Repr && (KnowsInstrument(id) <==> id in State.books) && orders.Keys == State.directory.Keys
    {
      hide MatchingBook.Valid, MatchingBook.View, MatchingBook.Named, BooksValid;
      SyncedRepr();
      ShelfReads(id);
    }

    method EmitReject(cmd: Command, reason: RejectReason) returns (events: seq<Event>)
      requires Valid()
      modifies this`nextEventSequence, this`State
      ensures Valid() && StepResult(State, events) == RejectCommand(old(State), cmd, reason)
    {
      hide Synced, WellFormed;
      CountersKeep(State, State.(nextEventSequence := State.nextEventSequence + 1));
      var n := TakeEventSequence();
      var clientOrderId := if cmd.ReplaceOrder? then cmd.originalClientOrderId else cmd.clientOrderId;
      events := [OrderRejected(n, cmd.commandSequence, cmd.accountId, clientOrderId, cmd.instrumentId, reason)];
    }

    method IssueIds() returns (exchangeOrderId: nat, priority: nat)
      requires Synced()
      modifies this`nextExchangeOrderId, this`nextPriority, this`State
      ensures Synced() && exchangeOrderId == old(State).nextExchangeOrderId && priority == old(State).nextPriority
      ensures State == old(State).(nextExchangeOrderId := exchangeOrderId + 1, nextPriority := priority + 1)
    {
      hide ShelfOk, Views, Named, DirectoryOk;
      exchangeOrderId, priority := nextExchangeOrderId, nextPriority;
      nextExchangeOrderId, nextPriority := exchangeOrderId + 1, priority + 1;
      State := State.(nextExchangeOrderId := exchangeOrderId + 1, nextPriority := priority + 1);
    }

    /** What matching_engine.cpp does with an order once it has an id: match it, then rest what is left. */
    method MatchAndRestOrder(order: RestingOrder, commandSequence: nat) returns (events: seq<Event>)
      requires Synced() && WellFormed(State) && KnowsInstrument(order.instrumentId)
      requires order.instrumentId in State.books
      modifies Repr
      ensures Synced() && fresh(Repr - old(Repr)) && SameRegistry()
      ensures StepResult(State, events) == MatchAndRest(old(State), order, commandSequence)
    {
      hide Synced, WellFormed, MatchLoop, RestRemainder;
      var incoming, fills := MatchIncoming(order, commandSequence);
      var rested := RestRemainderIfApplicable(incoming);
      events := fills + rested;
    }

    method CrossableFor(cmd: Command) returns (available: nat)
      requires Synced() && cmd.NewOrder? && KnowsInstrument(cmd.instrumentId) && cmd.instrumentId in State.books
      ensures available == CrossableQuantity(State.books[cmd.instrumentId].Orders(cmd.side.Opposite()), cmd.side,
                                             cmd.price, cmd.quantity)
    {
      hide MatchingBook.Valid, MatchingBook.View, MatchingBook.Named, Views, Named, BooksValid, DirectoryOk,
           CrossableQuantity;
      SyncedShelf(cmd.instrumentId);
      available := BookFor(cmd.instrumentId).CrossableQuantityOn(cmd.side.Opposite(), cmd.price, cmd.quantity);
    }

    method VetNewOrder(cmd: Command) returns (reason: RejectReason)
      requires Synced() && cmd.NewOrder?
      ensures reason == NewOrderVerdict(State, cmd)
    {
      hide Synced, CrossableQuantity;
      SyncedKnows(cmd.instrumentId);
      if !KnowsInstrument(cmd.instrumentId) {
        return InvalidInstrument;
      }
      if cmd.price <= 0 {
        return InvalidPrice;
      }
      if cmd.quantity == 0 {
        return InvalidQuantity;
      }
      assert orders.Keys == State.directory.Keys;
      if LiveKey(cmd.accountId, cmd.clientOrderId) in orders.Keys {
        return DuplicateOrderId;
      }
      if cmd.timeInForce == FOK {
        var available := CrossableFor(cmd);
        if available < cmd.quantity {
          return InsufficientLiquidity;
        }
      }
      reason := NoReason;
    }

    method HandleNewOrder(cmd: Command) returns (events: seq<Event>)
      requires Valid() && cmd.NewOrder?
      modifies Repr
      ensures Valid() && fresh(Repr - old(Repr)) && SameRegistry()
      ensures StepResult(State, events) == ProcessNewOrder(old(State), cmd)
    {
      hide Synced, WellFormed, ByIdOk, MatchAndRest, RejectCommand, NewOrderVerdict;
      NewOrderKeeps(State, cmd);
      var reason := VetNewOrder(cmd);
      if reason != NoReason {
        events := EmitReject(cmd, reason);
        return;
      }
      NewOrderStart(State, cmd);
      SyncedKnows(cmd.instrumentId);
      NewOrderKnows(State, cmd);
      var exchangeOrderId, priority := IssueIds();
      var n := TakeEventSequence();
      var order := RestingOrder(exchangeOrderId, cmd.clientOrderId, cmd.accountId, cmd.price, cmd.quantity,
                                cmd.quantity, priority, cmd.instrumentId, cmd.side, cmd.timeInForce);
      var accepted := OrderAccepted(n, cmd.commandSequence, cmd.accountId, cmd.clientOrderId, exchangeOrderId,
                                    cmd.instrumentId, cmd.side, cmd.price, cmd.quantity, cmd.orderType,
                                    cmd.timeInForce);
      var more := MatchAndRestOrder(order, cmd.commandSequence);
      events := [accepted] + more;
      SyncedRepr();
    }

    method HandleCancel(cmd: Command) returns (events: seq<Event>)
      requires Valid() && Locates(State) && cmd.CancelOrder?
      modifies Repr
      ensures Valid() && fresh(Repr - old(Repr)) && SameRegistry()
      ensures StepResult(State, events) == ProcessCancel(old(State), cmd)
    {
      hide Synced, WellFormed, ByIdOk, RejectCommand, Locates, BookOrder.Key;
      CancelKeeps(State, cmd);
      SyncedKnows(cmd.instrumentId);
      if !KnowsInstrument(cmd.instrumentId) {
        events := EmitReject(cmd, InvalidInstrument);
        return;
      }
      var key := LiveKey(cmd.accountId, cmd.clientOrderId);
      if key in orders {
        EntryLocates(key);
      }
      if key !in orders || orders[key].instrumentId != cmd.instrumentId {
        assert key !in orders ==> key !in orders.Keys;
        events := EmitReject(cmd, UnknownOrderId);
        return;
      }
      var removed := EraseOrder(key);
      var first := TakeEventSequence();
      var second := TakeEventSequence();
      events := [OrderCancelled(first, cmd.commandSequence, cmd.accountId, cmd.clientOrderId, removed.exchangeOrderId,
                                cmd.instrumentId),
                 BookOrderRemoved(second, cmd.instrumentId, removed.exchangeOrderId, removed.side, removed.price)];
      SyncedRepr();
    }

    /** The order a directory entry locates, read through its handle. */
    method LookUp(key: LiveKey) returns (order: BookOrder)
      requires Synced() && WellFormed(State) && Locates(State) && key in orders
      ensures key in State.directory
      ensures order == State.books[State.directory[key].instrumentId].Find(State.directory[key].exchangeOrderId)
    {
      hide MatchingBook.Valid, MatchingBook.View, Views, Named, BooksValid, DirectoryOk, WellFormed,
           BooksOk, DirectorySound, Rests, BookOrder.Key, Locates, NamedOn;
      var ref := orders[key];
      EntryLocates(key);
      SyncedShelf(ref.instrumentId);
      var book := BookFor(ref.instrumentId);
      NamedIsLive(book, ref.handle);
      NamedAt(book, ref.handle);
      book.AtStands(ref.handle);
      order := book.At(ref.handle);
      LocatedAt(State, key, order, book.Position(ref.handle));
    }

    method VetReplace(cmd: Command) returns (reason: RejectReason)
      requires Synced() && cmd.ReplaceOrder?
      ensures reason == ReplaceVerdict(State, cmd)
      ensures reason == NoReason ==> LiveKey(cmd.accountId, cmd.originalClientOrderId) in orders
    {
      hide Synced;
      SyncedKnows(cmd.instrumentId);
      if !KnowsInstrument(cmd.instrumentId) {
        return InvalidInstrument;
      }
      if cmd.newPrice <= 0 || cmd.newQuantity == 0 {
        return InvalidReplacement;
      }
      var key := LiveKey(cmd.accountId, cmd.originalClientOrderId);
      assert key !in orders ==> key !in orders.Keys;
      if key in orders {
        EntryLocates(key);
      }
      if key !in orders || orders[key].instrumentId != cmd.instrumentId {
        return UnknownOrderId;
      }
      reason := NoReason;
    }

    method HandleReplace(cmd: Command) returns (events: seq<Event>)
      requires Valid() && Locates(State) && cmd.ReplaceOrder?
      modifies Repr
      ensures Valid() && fresh(Repr - old(Repr)) && SameRegistry()
      ensures StepResult(State, events) == ProcessReplace(old(State), cmd)
    {
      hide Synced, WellFormed, ByIdOk, RejectCommand, Locates, BookOrder.Key, MatchAndRest, ReplaceVerdict;
      ReplaceKeeps(State, cmd);
      SyncedRepr();
      var reason := VetReplace(cmd);
      if reason != NoReason {
        events := EmitReject(cmd, reason);
        return;
      }
      ReplaceKnows(State, cmd);
      SyncedKnows(cmd.instrumentId);
      var key := LiveKey(cmd.accountId, cmd.originalClientOrderId);
      var resting := LookUp(key);
      if cmd.newPrice == resting.price && cmd.newQuantity <= resting.remainingQuantity {
        RenameEntry(key, cmd.newQuantity, cmd.newClientOrderId);
        var first := TakeEventSequence();
        var second := TakeEventSequence();
        events := [OrderReplaced(first, cmd.commandSequence, cmd.accountId, cmd.originalClientOrderId,
                                 cmd.newClientOrderId, resting.exchangeOrderId, cmd.instrumentId, cmd.newPrice,
                                 cmd.newQuantity),
                   BookOrderReduced(second, cmd.instrumentId, resting.exchangeOrderId, resting.side, resting.price,
                                    cmd.newQuantity)];
      } else {
        events := Reenter(cmd, key, resting);
      }
      SyncedRepr();
    }

    /** The priority-losing replace: cancel plus new. */
    method Reenter(cmd: Command, key: LiveKey, resting: BookOrder) returns (events: seq<Event>)
      requires Synced() && WellFormed(State) && Locates(State) && cmd.ReplaceOrder?
      requires ReplaceVerdict(State, cmd) == NoReason && ReplacedOrder(State, cmd) == resting
      requires key == LiveKey(cmd.accountId, cmd.originalClientOrderId) && key in orders
      requires KnowsInstrument(cmd.instrumentId)
      modifies Repr
      ensures Synced() && fresh(Repr - old(Repr)) && SameRegistry()
      ensures StepResult(State, events) == ReplaceByReentry(old(State), cmd)
    {
      hide Synced, WellFormed, Locates, BookOrder.Key, MatchAndRest, ReplaceVerdict;
      SyncedRepr();
      ReplaceKnows(State, cmd);
      ReentryStart(State, cmd);
      var removed := EraseOrder(key);
      var exchangeOrderId, priority := IssueIds();
      var first := TakeEventSequence();
      var second := TakeEventSequence();
      var announced := [
        OrderReplaced(first, cmd.commandSequence, cmd.accountId, cmd.originalClientOrderId, cmd.newClientOrderId,
                      exchangeOrderId, cmd.instrumentId, cmd.newPrice, cmd.newQuantity),
        BookOrderRemoved(second, cmd.instrumentId, resting.exchangeOrderId, resting.side, resting.price)];
      var order := RestingOrder(exchangeOrderId, cmd.newClientOrderId, cmd.accountId, cmd.newPrice, cmd.newQuantity,
                                cmd.newQuantity, priority, cmd.instrumentId, resting.side, resting.timeInForce);
      var more := MatchAndRestOrder(order, cmd.commandSequence);
      events := announced + more;
    }

    /** One command: the new state and the events are the model's. */
    method Handle(cmd: Command) returns (events: seq<Event>)
      requires Valid()
      modifies Repr
      ensures Valid() && fresh(Repr - old(Repr)) && SameRegistry()
      ensures Locates(old(State)) && StepResult(State, events) == Process(old(State), cmd)
    {
      hide Synced, WellFormed, Locates, ProcessNewOrder, ProcessCancel, ProcessReplace;
      ProcessKeeps(State, cmd);
      match cmd {
        case NewOrder(_, _, _, _, _, _, _, _, _) => events := HandleNewOrder(cmd);
        case CancelOrder(_, _, _, _) => events := HandleCancel(cmd);
        case ReplaceOrder(_, _, _, _, _, _, _) => events := HandleReplace(cmd);
      }
    }

    // ---------- registration ----------

    /** The registry as it stands after `id` took the next book position. */
    twostate predicate RegistryGrew(id: InstrumentId)
      reads this
    {
      && id < |slotOfId| && slotOfId[id] == |old(books)|
      && (forall x: nat :: x != id ==> (KnowsInstrument(x) <==> old(KnowsInstrument(x))))
      && (forall x: nat :: x != id && KnowsInstrument(x) ==> slotOfId[x] == old(slotOfId)[x])
    }

    twostate predicate OldObjectsUntouched()
      reads *
    {
      forall o :: o in old(Repr) && o != this ==> unchanged(o)
    }

    twostate lemma BooksStay()
      requires old(ShelfOk()) && OldObjectsUntouched()
      ensures forall j :: 0 <= j < |old(books)| ==> BookUnchanged(old(books)[j])
    {
      hide MatchingBook.Valid, MatchingBook.View;
      forall j | 0 <= j < |old(books)| ensures BookUnchanged(old(books)[j]) {
        Untouched(old(books)[j]);
      }
    }

    twostate lemma BooksGrow()
      requires old(BooksValid()) && old(ShelfOk())
      requires |books| == |old(books)| + 1 && books[..|old(books)|] == old(books)
      requires var book := books[|old(books)|]; book.Valid() && fresh(book.Repr) && Repr == old(Repr) + book.Repr
      requires OldObjectsUntouched()
      ensures BooksValid()
    {
      hide MatchingBook.Valid, MatchingBook.View, MatchingBook.Named, OldObjectsUntouched, RegistryOk;
      BooksStay();
      assert forall j :: 0 <= j < |old(books)| ==> books[j] == old(books)[j];
    }

    twostate lemma RegistryStays(id: InstrumentId)
      requires old(RegistryOk()) && !old(KnowsInstrument(id)) && RegistryGrew(id) && |books| == |old(books)| + 1
      ensures RegistryOk()
    {
    }

    /** One more book, for instrument `id`, and everything older as it was. */
    twostate predicate BookJoined(id: InstrumentId)
      requires old(ShelfOk())
      reads *
    {
      && !old(KnowsInstrument(id)) && RegistryGrew(id)
      && |books| == |old(books)| + 1 && books[..|old(books)|] == old(books)
      && var book := books[|old(books)|];
      && book.Valid() && fresh(book.Repr) && Repr == old(Repr) + book.Repr
      && book.View() == EMPTY_BOOK && book.Named() == map[]
      && OldObjectsUntouched()
    }

    twostate lemma JoinedShelf(id: InstrumentId)
      requires old(ShelfOk()) && BookJoined(id)
      ensures ShelfOk() && KnowsInstrument(id) && BookFor(id).View() == EMPTY_BOOK && BookFor(id).Named() == map[]
      ensures forall x: nat :: x != id && KnowsInstrument(x) ==>
                old(KnowsInstrument(x)) && BookFor(x) == old(BookFor(x)) && BookUnchanged(BookFor(x))
    {
      hide MatchingBook.Valid, MatchingBook.View, MatchingBook.Named, OldObjectsUntouched, BooksValid;
      BooksGrow();
      BooksStay();
      RegistryStays(id);
      assert forall j :: 0 <= j < |old(books)| ==> books[j] == old(books)[j];
    }

    twostate lemma ShelfGrows(id: InstrumentId)
      requires old(ShelfOk()) && BookJoined(id)
      ensures ShelfOk()
      ensures Views() == old(Views())[id := EMPTY_BOOK] && Named() == old(Named())[id := map[]]
    {
      hide Views, Named, ShelfOk, BookJoined;
      ViewsJoin(id);
      NamesJoin(id);
    }

    twostate lemma ViewsJoin(id: InstrumentId)
      requires old(ShelfOk()) && BookJoined(id)
      ensures ShelfOk() && Views() == old(Views())[id := EMPTY_BOOK]
    {
      hide MatchingBook.Valid, MatchingBook.View, MatchingBook.Named, OldObjectsUntouched, BooksValid, BookFor, Named;
      JoinedShelf(id);
    }

    twostate lemma NamesJoin(id: InstrumentId)
      requires old(ShelfOk()) && BookJoined(id)
      ensures ShelfOk() && Named() == old(Named())[id := map[]]
    {
      hide MatchingBook.Valid, MatchingBook.View, MatchingBook.Named, OldObjectsUntouched, BooksValid, BookFor, Views;
      JoinedShelf(id);
    }

    twostate lemma ByIdGrows(id: InstrumentId)
      requires old(ByIdOk()) && !old(KnowsInstrument(id)) && RegistryGrew(id)
      requires byId == InsertById(old(byId), id, |old(books)|)
      ensures ByIdOk()
    {
      InsertByIdSorts(old(byId), id, |old(books)|);
      forall x: nat | KnowsInstrument(x) ensures ListedById(x) {
        if x == id {
          assert (id, |old(books)|) in byId;
        } else {
          assert old(ListedById(x));
          var k :| 0 <= k < |old(byId)| && old(byId)[k].0 == x;
          assert old(byId)[k] in byId;
        }
      }
    }

    /** A new empty book takes the next position, under a band no wider than its share of the budget. */
    method AppendBook(id: InstrumentId)
      requires ShelfOk() && ByIdOk() && !KnowsInstrument(id) && bandTicks <= MAX_BAND_TICKS
      modifies this`slotOfId, this`books, this`byId, this`bandTicks, this`Repr
      ensures ShelfOk() && ByIdOk() && fresh(Repr - old(Repr)) && bandTicks <= old(bandTicks)
      ensures Views() == old(Views())[id := EMPTY_BOOK] && Named() == old(Named())[id := map[]]
    {
      hide MatchingBook.Valid, MatchingBook.View, MatchingBook.Named, BooksValid, Views, Named, ByIdOk, BandFor;
      if id >= |slotOfId| {
        slotOfId := slotOfId + seq(id + 1 - |slotOfId|, _ => NO_SLOT);
      }
      var slot := |books|;
      BandIsAffordable(|books| + 1, LADDER_BYTE_BUDGET);
      bandTicks := Min(bandTicks, BandFor(|books| + 1, LADDER_BYTE_BUDGET));
      var book := new MatchingBook(bandTicks);
      NothingNamed(book);
      books := books + [book];
      slotOfId := slotOfId[id := slot];
      byId := InsertById(byId, id, slot);
      Repr := Repr + book.Repr;
      ShelfGrows(id);
      ByIdGrows(id);
    }

    /** False, and no change, when the id is too large or already registered. */
    method RegisterInstrument(id: InstrumentId) returns (registered: bool)
      requires Valid()
      modifies this
      ensures Valid() && fresh(Repr - old(Repr)) && bandTicks <= old(bandTicks)
      ensures registered <==> id <= MAX_INSTRUMENT_ID && !old(State).Knows(id)
      ensures State == Register(old(State), id)
    {
      hide MatchingBook.Valid, MatchingBook.View, MatchingBook.Named, BooksValid, Views, Named, WellFormed, DirectoryOk,
           ByIdOk;
      SyncedKnows(id);
      RegisterKeeps(State, id);
      if id > MAX_INSTRUMENT_ID || KnowsInstrument(id) {
        return false;
      }
      ShelfReads(id);
      DirectoryAfterJoining(orders, Named(), State.directory, id);
      AppendBook(id);
      State := Register(State, id);
      SyncedRepr();
      registered := true;
    }

    // ---------- construction ----------

    lemma FreshEngine()
      requires slotOfId == seq(|slotOfId|, i => NO_SLOT) && books == [] && byId == [] && orders == map[]
      requires this in Repr && State == INITIAL_STATE && bandTicks <= MAX_BAND_TICKS
      requires nextExchangeOrderId == 1 && nextEventSequence == 1 && nextPriority == 1
      ensures Valid()
    {
      EmptyStateWellFormed(INITIAL_STATE);
    }

    /** Registers every instrument of the universe, each book under the band the whole universe affords. */
    constructor (universe: seq<InstrumentId>)
      ensures Valid() && fresh(Repr) && State == RegisterAll(INITIAL_STATE, universe)
    {
      var widest := Widest(universe);
      slotOfId := if universe == [] then [] else seq(widest + 1, i => NO_SLOT);
      bandTicks := BandFor(|universe|, LADDER_BYTE_BUDGET);
      books, byId, orders := [], [], map[];
      nextExchangeOrderId, nextEventSequence, nextPriority := 1, 1, 1;
      State := INITIAL_STATE;
      Repr := {this};
      new;
      BandWithinLimit(|universe|);
      FreshEngine();
      for i := 0 to |universe|
        invariant Valid() && fresh(Repr)
        invariant RegisterAll(State, universe[i..]) == RegisterAll(INITIAL_STATE, universe)
      {
        assert universe[i..][0] == universe[i] && universe[i..][1..] == universe[i + 1..];
        var _ := RegisterInstrument(universe[i]);
      }
      assert universe[|universe|..] == [];
    }

    // ---------- snapshots ----------

    method ComposeOrders(s: seq<BookOrder>, id: InstrumentId) returns (composed: Option<seq<RestingOrder>>)
      requires Synced()
      ensures composed == ComposeAll(State.directory, s, id)
    {
      hide Synced;
      SyncedKnows(id);
      var done: seq<RestingOrder> := [];
      for i := 0 to |s|
        invariant ComposeAll(State.directory, s[..i], id) == Some(done)
      {
        ComposeAllReads(State.directory, s, id);
        if s[i].Key() !in orders {
          assert s[i].Key() !in orders.Keys;
          return None;
        }
        EntryLocates(s[i].Key());
        var ref := orders[s[i].Key()];
        assert s[..i + 1][..i] == s[..i];
        done := done + [RestingOrder(s[i].exchangeOrderId, s[i].clientOrderId, s[i].accountId, s[i].price,
                                     ref.originalQuantity, s[i].remainingQuantity, ref.orderSequence, id, s[i].side,
                                     s[i].timeInForce)];
      }
      assert s[..|s|] == s;
      composed := Some(done);
    }

    method DumpBook(id: InstrumentId) returns (bids: Option<seq<RestingOrder>>, asks: Option<seq<RestingOrder>>)
      requires Synced() && KnowsInstrument(id) && id in State.books
      ensures bids == ComposeAll(State.directory, State.books[id].bids, id)
      ensures asks == ComposeAll(State.directory, State.books[id].asks, id)
    {
      hide MatchingBook.Valid, MatchingBook.View, MatchingBook.Named, Views, Named, BooksValid, DirectoryOk;
      SyncedShelf(id);
      var allBids := BookFor(id).AllOf(Buy);
      var allAsks := BookFor(id).AllOf(Sell);
      bids := ComposeOrders(allBids, id);
      asks := ComposeOrders(allAsks, id);
    }

    lemma ByIdNext(ids: seq<InstrumentId>)
      requires Synced() && ByIdOk() && |ids| <= |byId|
      requires forall k :: 0 <= k < |ids| ==> ids[k] == byId[k].0
      ensures |ids| < |byId| ==> KnowsInstrument(byId[|ids|].0) && forall x :: x in ids ==> x < byId[|ids|].0
      ensures |ids| == |byId| ==> forall id: nat :: KnowsInstrument(id) ==> id in ids
    {
      hide Synced;
      if |ids| == |byId| {
        forall id: nat | KnowsInstrument(id) ensures id in ids {
          assert ListedById(id);
          var k :| 0 <= k < |byId| && byId[k].0 == id;
          assert ids[k] == id;
        }
      }
    }

    /** None exactly when some resting order has lost its directory entry. */
    method Snapshot() returns (snap: Option<seq<InstrumentBook>>)
      requires Valid()
      ensures snap.Some? ==> IsSnapshot(State, snap.value)
      ensures snap.None? <==> Uncomposable(State)
    {
      hide Synced, ByIdOk, WellFormed, Dumps, Uncomposable, KnowsInstrument;
      var done: seq<InstrumentBook> := [];
      ghost var ids: seq<InstrumentId> := [];
      for i := 0 to |byId|
        invariant DumpsFirst(State, ids, done)
        invariant |ids| == i && forall k :: 0 <= k < i ==> ids[k] == byId[k].0
      {
        ByIdNext(ids);
        var id := byId[i].0;
        SyncedKnows(id);
        var bids, asks := DumpBook(id);
        if bids.None? || asks.None? {
          ComposesOrNot(State, id, if bids.None? then Buy else Sell);
          return None;
        }
        DumpNext(State, ids, done, InstrumentBook(id, bids.value, asks.value));
        if bids.value != [] || asks.value != [] {
          done := done + [InstrumentBook(id, bids.value, asks.value)];
        }
        ids := ids + [id];
      }
      ByIdNext(ids);
      forall id | Occupied(State, id) ensures Lists(done, id) {
        SyncedKnows(id);
      }
      SnapshotComposes(State, done);
      snap := Some(done);
    }
  }

  function Widest(universe: seq<InstrumentId>): InstrumentId {
    if universe == [] then 0
    else
      var rest := Widest(universe[1..]);
      if rest < universe[0] <= MAX_INSTRUMENT_ID then universe[0] else rest
  }

  lemma BandWithinLimit(n: nat)
    ensures BandFor(n, LADDER_BYTE_BUDGET) <= MAX_BAND_TICKS
  {
    if n > 0 {
      BandIsAffordable(n, LADDER_BYTE_BUDGET);
    }
  }

  lemma NothingNamed(book: MatchingBook)
    requires book.Valid() && book.live == {}
    ensures book.Named() == map[]
  {
  }

  lemma DirectoryAfterJoining(orders: map<LiveKey, EntryRef>, names: Names, directory: map<LiveKey, OrderRef>,
                              id: InstrumentId)
    requires DirectoryOk(orders, names, directory) && id !in names
    ensures DirectoryOk(orders, names[id := map[]], directory)
  {
    forall k | k in directory ensures EntryOk(orders, names[id := map[]], directory, k) {
      assert EntryOk(orders, names, directory, k);
    }
  }

  lemma RegisterRests(st: EngineState, id: InstrumentId)
    requires BooksOk(st)
    ensures BooksOk(Register(st, id))
    ensures forall x, o :: Rests(Register(st, id), x, o) <==> Rests(st, x, o)
  {
    assert forall x, o :: Rests(Register(st, id), x, o) <==> Rests(st, x, o);
  }

  /** Registration keeps the state in order: an empty book changes no order and no entry. */
  lemma RegisterKeeps(st: EngineState, id: InstrumentId)
    requires WellFormed(st)
    ensures WellFormed(Register(st, id))
    ensures DirectoryComplete(st) ==> DirectoryComplete(Register(st, id))
  {
    hide Rests, BooksOk;
    RegisterRests(st, id);
    var st' := Register(st, id);
    forall k | k in st'.directory ensures EntrySound(st', k, st'.directory[k]) {
      var o := EntryOrder(st, k);
      assert IsEntryOf(st', k, st'.directory[k], o);
    }
  }

  /** Where an entry belongs in the list by id: after everything smaller. */
  function LowerBound(byId: seq<(InstrumentId, nat)>, id: InstrumentId): (k: nat)
    ensures k <= |byId|
  {
    if byId == [] || byId[0].0 >= id then 0 else 1 + LowerBound(byId[1..], id)
  }

  function InsertById(byId: seq<(InstrumentId, nat)>, id: InstrumentId, slot: nat): seq<(InstrumentId, nat)> {
    var k := LowerBound(byId, id);
    byId[..k] + [(id, slot)] + byId[k..]
  }

  lemma LowerBoundSplits(byId: seq<(InstrumentId, nat)>, id: InstrumentId)
    requires forall i, j :: 0 <= i < j < |byId| ==> byId[i].0 < byId[j].0
    ensures forall i :: 0 <= i < LowerBound(byId, id) ==> byId[i].0 < id
    ensures forall i :: LowerBound(byId, id) <= i < |byId| ==> byId[i].0 >= id
  {
    if byId != [] && byId[0].0 < id {
      LowerBoundSplits(byId[1..], id);
    }
  }

  lemma InsertByIdSorts(byId: seq<(InstrumentId, nat)>, id: InstrumentId, slot: nat)
    requires forall i, j :: 0 <= i < j < |byId| ==> byId[i].0 < byId[j].0
    requires forall i :: 0 <= i < |byId| ==> byId[i].0 != id
    ensures var byId' := InsertById(byId, id, slot);
            && (forall i, j :: 0 <= i < j < |byId'| ==> byId'[i].0 < byId'[j].0)
            && (forall x :: x in byId' <==> x in byId || x == (id, slot))
  {
    LowerBoundSplits(byId, id);
    var k := LowerBound(byId, id);
    var byId' := InsertById(byId, id, slot);
    assert byId'[k] == (id, slot);
    forall x | x in byId ensures x in byId' {
      var i :| 0 <= i < |byId| && byId[i] == x;
      assert byId'[if i < k then i else i + 1] == x;
    }
  }

  lemma NamedAt(book: MatchingBook, handle: nat)
    requires book.Valid() && handle in book.Named()
    ensures handle in book.live && book.Named()[handle] == book.At(handle)
  {
  }

  lemma ReplaceKnows(st: EngineState, cmd: Command)
    requires cmd.ReplaceOrder? && ReplaceVerdict(st, cmd) == NoReason
    ensures cmd.instrumentId in st.books
    ensures LiveKey(cmd.accountId, cmd.originalClientOrderId) in st.directory
    ensures st.directory[LiveKey(cmd.accountId, cmd.originalClientOrderId)].instrumentId == cmd.instrumentId
  {
  }

  lemma NewOrderKnows(st: EngineState, cmd: Command)
    requires cmd.NewOrder? && NewOrderVerdict(st, cmd) == NoReason
    ensures cmd.instrumentId in st.books
  {
  }

  lemma MatchUnrolls(st: EngineState, incoming: RestingOrder, c: nat, before: seq<Event>)
    requires incoming.instrumentId in st.books && CanFill(st, incoming)
    ensures var one := FillOnce(st, incoming, c); var rest := MatchLoop(one.state, one.incoming, c);
            && MatchLoop(st, incoming, c).(events := before + MatchLoop(st, incoming, c).events)
                 == rest.(events := before + one.events + rest.events)
            && (|Contra(one.state, one.incoming)| < |Contra(st, incoming)|
                || (|Contra(one.state, one.incoming)| == |Contra(st, incoming)|
                    && one.incoming.remainingQuantity < incoming.remainingQuantity))
  {
    var one := FillOnce(st, incoming, c);
    var rest := MatchLoop(one.state, one.incoming, c);
    assert before + (one.events + rest.events) == before + one.events + rest.events;
  }

  lemma MatchEnds(st: EngineState, incoming: RestingOrder, c: nat)
    requires incoming.instrumentId in st.books && !CanFill(st, incoming)
    ensures MatchLoop(st, incoming, c) == MatchResult(st, incoming, [])
  {
  }

  /** The order found at position j of its side is the one its directory entry locates. */
  lemma LocatedAt(st: EngineState, key: LiveKey, o: BookOrder, j: nat)
    requires WellFormed(st) && Locates(st) && key in st.directory
    requires o.exchangeOrderId == st.directory[key].exchangeOrderId
    requires var s := st.books[st.directory[key].instrumentId].Orders(o.side); j < |s| && s[j] == o
    ensures BooksOk(st) && DirectorySound(st) && Rests(st, st.directory[key].instrumentId, o) && o.Key() == key
    ensures var book := st.books[st.directory[key].instrumentId]; var s := book.Orders(o.side);
            && book.Holds(o.exchangeOrderId) && book.Find(o.exchangeOrderId) == o
            && book.SideHolding(o.exchangeOrderId) == o.side && IndexOf(s, o.exchangeOrderId) == j
            && book.Without(o.exchangeOrderId) == book.With(o.side, WithoutAt(s, j))
  {
    var id := st.directory[key].instrumentId;
    assert o in st.books[id].Orders(o.side);
    var x := EntryOrder(st, key);
    FindResting(st, id, o);
    assert SideOk(o.side, st.books[id].Orders(o.side));
  }

  lemma LocatedEdit(st: EngineState, key: LiveKey, o: BookOrder, j: nat, o': BookOrder)
    requires WellFormed(st) && Locates(st) && key in st.directory
    requires o.exchangeOrderId == st.directory[key].exchangeOrderId
    requires var s := st.books[st.directory[key].instrumentId].Orders(o.side); j < |s| && s[j] == o
    ensures var book := st.books[st.directory[key].instrumentId];
            && book.Holds(o.exchangeOrderId) && book.Find(o.exchangeOrderId) == o
            && book.Replacing(o.exchangeOrderId, o') == book.With(o.side, book.Orders(o.side)[j := o'])
  {
    hide WellFormed, Locates;
    LocatedAt(st, key, o, j);
  }

  lemma FrontRests(st: EngineState, id: InstrumentId, side: Side)
    requires WellFormed(st) && id in st.books && st.books[id].Orders(side) != []
    ensures BooksOk(st) && DirectorySound(st) && Rests(st, id, st.books[id].Orders(side)[0])
  {
    assert st.books[id].Orders(side)[0] in st.books[id].Orders(side);
  }
}
