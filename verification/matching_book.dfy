/** The authoritative order book for one instrument: an order slab with an intrusive free list, level queues
    threaded through it, and one price index per side. Proved to be, on each side, a map from price to a
    non-empty first-in-first-out queue, and to read out as one sequence in price-time priority. */
module MatchingBooks {
  import opened ExchangeTypes
  import opened MatchingModel
  import opened SideIndexes
  import opened BookQueues

  /** The walk over a side: before position k everything is better than price p, from k on nothing is. */
  ghost predicate AtLevel(slab: Slab, side: Side, slots: seq<nat>, k: nat, p: Price)
    requires InSlab(slab, slots)
  {
    && k <= |slots|
    && (forall i :: 0 <= i < k ==> Better(side, slab[slots[i]].order.price, p))
    && (forall i :: k <= i < |slots| ==> !Better(side, slab[slots[i]].order.price, p))
  }

  lemma SlotPrice(slab: Slab, side: Side, queues: Queues, slots: seq<nat>, i: nat)
    requires Flattened(slab, side, queues, slots) && i < |slots|
    ensures slab[slots[i]].order.price in queues && slots[i] in queues[slab[slots[i]].order.price]
  {
    var p := slab[slots[i]].order.price;
    AtPriceMembers(slab, slots, p);
    assert slots[i] in AtPrice(slab, slots, p);
  }

  lemma LevelSegment(slab: Slab, side: Side, queues: Queues, slots: seq<nat>, k: nat, p: Price)
    requires Flattened(slab, side, queues, slots) && p in queues && AtLevel(slab, side, slots, k, p)
    ensures k + |queues[p]| <= |slots| && slots[k..k + |queues[p]|] == queues[p]
    ensures forall i :: k + |queues[p]| <= i < |slots| ==> Better(side, p, slab[slots[i]].order.price)
  {
    assert slots == slots[..k] + slots[k..];
    AtPriceConcat(slab, slots[..k], slots[k..], p);
    AtPriceNone(slab, slots[..k], p);
    FlattenHead(slab, side, slots[k..], p);
    assert AtPrice(slab, slots, p) == queues[p];
    forall i | k + |queues[p]| <= i < |slots| ensures Better(side, p, slab[slots[i]].order.price) {
      assert slots[i] == slots[k..][i - k];
    }
  }

  lemma WalkStarts(slab: Slab, side: Side, queues: Queues, slots: seq<nat>, p: Price)
    requires Flattened(slab, side, queues, slots) && IsBest(side, p, queues.Keys)
    ensures AtLevel(slab, side, slots, 0, p)
  {
    forall i | 0 <= i < |slots| ensures !Better(side, slab[slots[i]].order.price, p) {
      SlotPrice(slab, side, queues, slots, i);
    }
  }

  lemma WalkAdvances(slab: Slab, side: Side, queues: Queues, slots: seq<nat>, k: nat, p: Price, next: Option<Price>)
    requires Flattened(slab, side, queues, slots) && p in queues && AtLevel(slab, side, slots, k, p)
    requires next.None? ==> forall q :: q in queues ==> !Better(side, p, q)
    requires next.Some? ==> IsBest(side, next.value, WorseThan(side, queues.Keys, p))
    ensures var k' := k + |queues[p]|;
            && k' <= |slots|
            && (next.None? ==> k' == |slots|)
            && (next.Some? ==> next.value in queues && AtLevel(slab, side, slots, k', next.value))
  {
    LevelSegment(slab, side, queues, slots, k, p);
    var k' := k + |queues[p]|;
    if k' < |slots| {
      SlotPrice(slab, side, queues, slots, k');
    }
    if next.Some? {
      forall i | 0 <= i < |slots|
        ensures if i < k' then Better(side, slab[slots[i]].order.price, next.value)
                else !Better(side, slab[slots[i]].order.price, next.value)
      {
        SlotPrice(slab, side, queues, slots, i);
        if k <= i < k' {
          assert slots[i] == slots[k..k'][i - k];
          assert slots[i] in queues[p];
          AtPriceMembers(slab, slots, p);
        } else if k' <= i {
          assert slab[slots[i]].order.price in WorseThan(side, queues.Keys, p);
        }
      }
    }
  }

  /** A non-empty side's first slot heads its best level. */
  lemma BestHeads(slab: Slab, side: Side, queues: Queues, levels: map<Price, LevelSlot>, live: set<nat>,
                  slots: seq<nat>, p: Price)
    requires Flattened(slab, side, queues, slots) && SideLinked(slab, live, side, queues, levels)
    requires IsBest(side, p, queues.Keys)
    ensures slots != [] && levels[p].head == slots[0] && queues[p][0] == slots[0]
    ensures slots[0] in live && slab[slots[0]].order.side == side && slab[slots[0]].order.price == p
  {
    WalkStarts(slab, side, queues, slots, p);
    LevelSegment(slab, side, queues, slots, 0, p);
    assert QueueLinked(slab, side, p, queues[p], levels[p]);
    assert slots[0..|queues[p]|][0] == slots[0];
    Neighbours(slab, side, p, queues[p], levels[p], 0);
  }

  lemma SlotsAreLive(slab: Slab, live: set<nat>, side: Side, queues: Queues, levels: map<Price, LevelSlot>,
                     slots: seq<nat>)
    requires Flattened(slab, side, queues, slots) && SideLinked(slab, live, side, queues, levels)
    ensures forall s :: s in slots <==> s in live && s < |slab| && slab[s].order.side == side
  {
    forall s | s in slots ensures s in live && s < |slab| && slab[s].order.side == side {
      var i :| 0 <= i < |slots| && slots[i] == s;
      SlotPrice(slab, side, queues, slots, i);
      var q := queues[slab[s].order.price];
      var j :| 0 <= j < |q| && q[j] == s;
      Neighbours(slab, side, slab[s].order.price, q, levels[slab[s].order.price], j);
    }
    forall s | s in live && s < |slab| && slab[s].order.side == side ensures s in slots {
      AtPriceMembers(slab, slots, slab[s].order.price);
    }
  }

  /** One side is in order: its levels are threaded through the slab and `slots` reads them out. */
  ghost predicate SideOkOn(slab: Slab, live: set<nat>, side: Side, queues: Queues, levels: map<Price, LevelSlot>,
                           slots: seq<nat>)
  {
    SideLinked(slab, live, side, queues, levels) && Flattened(slab, side, queues, slots)
  }

  /** The slots partition into live ones and the chain of free ones. */
  ghost predicate StorageOn(slab: Slab, live: set<nat>, free: seq<nat>, freeHead: int) {
    Partitioned(slab, live, free) && FreeLinked(slab, free, freeHead)
  }

  /** What taking a slot for a new order does to the slab: nothing but that slot may change. */
  ghost predicate SlabGrew(slab: Slab, slab': Slab, slot: nat) {
    && |slab| <= |slab'| && slot < |slab'|
    && forall s: nat :: s < |slab| && s != slot ==> slab'[s] == slab[s]
  }

  lemma AcquireKeepsSide(slab: Slab, slab': Slab, live: set<nat>, side: Side, queues: Queues,
                         levels: map<Price, LevelSlot>, slots: seq<nat>, slot: nat)
    requires SideOkOn(slab, live, side, queues, levels, slots) && LiveInSlab(slab, live)
    requires SlabGrew(slab, slab', slot) && slot !in live
    ensures SideOkOn(slab', live, side, queues, levels, slots)
    ensures Orders(slab', slots) == Orders(slab, slots)
  {
    SideFrame(slab, slab', live, side, queues, levels);
    SlotsAreLive(slab, live, side, queues, levels, slots);
    FlattenFrame(slab, slab', side, queues, slots);
    assert forall i :: 0 <= i < |slots| ==> slots[i] in slots;
  }

  ghost function Queued(queues: Queues, p: Price, slot: nat): Queues {
    queues[p := (if p in queues then queues[p] else []) + [slot]]
  }

  /** The slots of a side with a new one at its place in price-time priority. */
  ghost function Slotted(slab: Slab, side: Side, slots: seq<nat>, slot: nat): seq<nat>
    requires InSlab(slab, slots) && slot < |slab|
  {
    var k := Rank(side, Orders(slab, slots), slab[slot].order.price);
    slots[..k] + [slot] + slots[k..]
  }

  lemma AddKeepsFlat(slab: Slab, side: Side, queues: Queues, slots: seq<nat>, slot: nat, level: LevelSlot)
    requires Flattened(slab, side, queues, slots) && slot < |slab|
    requires level.tail == NIL || 0 <= level.tail < |slab|
    requires slab[slot].order.side == side
    ensures var slab' := LinkedBack(slab, level, slot); var slots' := Slotted(slab, side, slots, slot);
            && Flattened(slab', side, Queued(queues, slab[slot].order.price, slot), slots')
            && Orders(slab', slots') == Insert(Orders(slab, slots), slab[slot].order)
  {
    var p := slab[slot].order.price;
    var q := if p in queues then queues[p] else [];
    var k := Rank(side, Orders(slab, slots), p);
    FlattenInsert(slab, side, queues, slots, slot, k);
    OrderInsert(slab, side, slots, slot, k);
    LinkedBackOrders(slab, level, slot);
    FlattenFrame(slab, LinkedBack(slab, level, slot), side, queues[p := q + [slot]], slots[..k] + [slot] + slots[k..]);
  }

  lemma AddKeepsSide(slab: Slab, live: set<nat>, side: Side, queues: Queues, levels: map<Price, LevelSlot>,
                     slots: seq<nat>, slot: nat, p: Price, level: LevelSlot, level': LevelSlot)
    requires SideOkOn(slab, live, side, queues, levels, slots) && LiveInSlab(slab, live)
    requires slot < |slab| && slot !in live && slab[slot].order.side == side && slab[slot].order.price == p
    requires level == if p in levels then levels[p] else EMPTY_LEVEL
    requires level' == LevelSlot(if level.tail == NIL then slot else level.head, slot)
    ensures level.tail == NIL || 0 <= level.tail < |slab|
    ensures InSlab(slab, slots)
    ensures SideOkOn(LinkedBack(slab, level, slot), live + {slot}, side,
                     Queued(queues, p, slot), levels[p := level'], Slotted(slab, side, slots, slot))
    ensures Orders(LinkedBack(slab, level, slot), Slotted(slab, side, slots, slot))
              == Insert(Orders(slab, slots), slab[slot].order)
  {
    var q := if p in queues then queues[p] else [];
    LinkBackSide(slab, live, side, queues, levels, slot, p, q, level, level');
    AddKeepsFlat(slab, side, queues, slots, slot, level);
  }

  /** The level a new order joins ends in a live order of the same side and price, or is empty. */
  lemma JoinedLevel(slab: Slab, live: set<nat>, side: Side, queues: Queues, levels: map<Price, LevelSlot>,
                    slots: seq<nat>, p: Price, level: LevelSlot)
    requires SideOkOn(slab, live, side, queues, levels, slots)
    requires level == if p in levels then levels[p] else EMPTY_LEVEL
    ensures level.tail == NIL || (0 <= level.tail < |slab| && slab[level.tail].order.side == side && level.tail in live)
  {
    LevelTail(slab, live, side, queues, levels, p);
  }

  lemma AddKeepsOtherSide(slab: Slab, live: set<nat>, side: Side, queues: Queues, levels: map<Price, LevelSlot>,
                          slots: seq<nat>, slot: nat, level: LevelSlot)
    requires SideOkOn(slab, live, side, queues, levels, slots) && LiveInSlab(slab, live)
    requires slot < |slab| && slot !in live && slab[slot].order.side != side
    requires level.tail == NIL || (0 <= level.tail < |slab| && slab[level.tail].order.side != side)
    ensures SideOkOn(LinkedBack(slab, level, slot), live + {slot}, side, queues, levels, slots)
    ensures Orders(LinkedBack(slab, level, slot), slots) == Orders(slab, slots)
  {
    LinkBackOtherSide(slab, live, side, queues, levels, slot, level);
    LinkedBackOrders(slab, level, slot);
    FlattenFrame(slab, LinkedBack(slab, level, slot), side, queues, slots);
  }

  ghost predicate LiveInSlab(slab: Slab, live: set<nat>) {
    forall s :: s in live ==> s < |slab|
  }

  lemma LinkBackKeepsFree(slab: Slab, live: set<nat>, free: seq<nat>, freeHead: int, slot: nat, level: LevelSlot)
    requires StorageOn(slab, live + {slot}, free, freeHead)
    requires slot < |slab| && (level.tail == NIL || (0 <= level.tail < |slab| && level.tail in live))
    ensures StorageOn(LinkedBack(slab, level, slot), live + {slot}, free, freeHead)
  {
    assert forall i :: 0 <= i < |free| ==> free[i] in free;
  }

  /** Linking a slot in keeps both sides and the free chain in order. */
  lemma AddKeepsBook(slab0: Slab, slab: Slab, live: set<nat>, free: seq<nat>, freeHead: int, side: Side,
                     queues: Queues, queues': Queues, levels: map<Price, LevelSlot>, levels': map<Price, LevelSlot>,
                     slots: seq<nat>, slots': seq<nat>, slot: nat, level: LevelSlot)
    requires StorageOn(slab, live + {slot}, free, freeHead)
    requires SlabGrew(slab0, slab, slot) && LiveInSlab(slab0, live) && slot !in live && slab[slot].order.side == side
    requires SideOkOn(slab, live, side, queues, levels, slots)
    requires SideOkOn(slab, live, side.Opposite(), queues', levels', slots')
    requires var p := slab[slot].order.price; level == if p in levels then levels[p] else EMPTY_LEVEL
    ensures level.tail == NIL || 0 <= level.tail < |slab|
    ensures InSlab(slab, slots) && InSlab(slab, slots')
    ensures var slab' := LinkedBack(slab, level, slot); var p := slab[slot].order.price;
            var level' := LevelSlot(if level.tail == NIL then slot else level.head, slot);
            && slot < |slab'| && slab'[slot].order == slab[slot].order
            && (forall s :: s in live ==> s < |slab0| <= |slab'| && slab'[s].order == slab0[s].order)
            && StorageOn(slab', live + {slot}, free, freeHead)
            && SideOkOn(slab', live + {slot}, side, Queued(queues, p, slot), levels[p := level'],
                        Slotted(slab, side, slots, slot))
            && SideOkOn(slab', live + {slot}, side.Opposite(), queues', levels', slots')
            && Orders(slab', Slotted(slab, side, slots, slot)) == Insert(Orders(slab, slots), slab[slot].order)
            && Orders(slab', slots') == Orders(slab, slots')
  {
    hide SideOkOn, StorageOn, Insert;
    assert InSlab(slab, slots') by {
      SideSlots(slab, live, side.Opposite(), queues', levels', slots');
    }
    assert LiveInSlab(slab, live);
    var p := slab[slot].order.price;
    JoinedLevel(slab, live, side, queues, levels, slots, p, level);
    LinkedBackOrders(slab, level, slot);
    LinkBackKeepsFree(slab, live, free, freeHead, slot, level);
    AddKeepsSide(slab, live, side, queues, levels, slots, slot, p, level,
                 LevelSlot(if level.tail == NIL then slot else level.head, slot));
    AddKeepsOtherSide(slab, live, side.Opposite(), queues', levels', slots', slot, level);
  }

  lemma UnlinkKeepsFlat(slab: Slab, live: set<nat>, side: Side, queues: Queues, levels: map<Price, LevelSlot>,
                        slots: seq<nat>, j: nat, p: Price, i: nat)
    requires SideLinked(slab, live, side, queues, levels) && Flattened(slab, side, queues, slots)
    requires p in queues && i < |queues[p]| && j < |slots| && slots[j] == queues[p][i]
    ensures Flattened(slab, side, Dequeued(queues, p, i), slots[..j] + slots[j + 1..])
    ensures InSlab(slab, slots) && InSlab(slab, slots[..j] + slots[j + 1..])
    ensures Orders(slab, slots[..j] + slots[j + 1..]) == WithoutAt(Orders(slab, slots), j)
  {
    hide Flattened, Dequeued;
    FlatSlots(slab, side, queues, slots);
    OrdersRemove(slab, slots, j);
    assert QueueLinked(slab, side, p, queues[p], levels[p]);
    Neighbours(slab, side, p, queues[p], levels[p], i);
    FlattenRemove(slab, side, queues, slots, j, p, i);
  }

  lemma FlatSlots(slab: Slab, side: Side, queues: Queues, slots: seq<nat>)
    requires Flattened(slab, side, queues, slots)
    ensures InSlab(slab, slots)
  {
  }

  lemma OrdersRemove(slab: Slab, slots: seq<nat>, j: nat)
    requires InSlab(slab, slots) && j < |slots|
    ensures InSlab(slab, slots[..j] + slots[j + 1..])
    ensures Orders(slab, slots[..j] + slots[j + 1..]) == WithoutAt(Orders(slab, slots), j)
  {
  }

  lemma SlabKeepsFlat(slab: Slab, slab': Slab, side: Side, queues: Queues, slots: seq<nat>)
    requires Flattened(slab, side, queues, slots) && SameOrders(slab, slab')
    ensures Flattened(slab', side, queues, slots) && Orders(slab', slots) == Orders(slab, slots)
  {
    FlattenFrame(slab, slab', side, queues, slots);
  }

  /** The slab after unlink and release_slot. */
  ghost function Released(slab: Slab, slot: nat, freeHead: int): Slab
    requires slot < |slab|
    requires slab[slot].next == NIL || 0 <= slab[slot].next < |slab|
    requires slab[slot].prev == NIL || 0 <= slab[slot].prev < |slab|
  {
    var slab' := Unlinked(slab, slot);
    slab'[slot := slab'[slot].(next := freeHead)]
  }

  lemma ReleasedOrders(slab: Slab, slot: nat, freeHead: int)
    requires slot < |slab|
    requires slab[slot].next == NIL || 0 <= slab[slot].next < |slab|
    requires slab[slot].prev == NIL || 0 <= slab[slot].prev < |slab|
    ensures SameOrders(slab, Released(slab, slot, freeHead))
  {
  }

  lemma RemoveKeepsStorage(slab: Slab, live: set<nat>, free: seq<nat>, freeHead: int, slot: nat)
    requires StorageOn(slab, live, free, freeHead) && slot in live && slot < |slab|
    requires slab[slot].next == NIL || (0 <= slab[slot].next < |slab| && slab[slot].next in live)
    requires slab[slot].prev == NIL || (0 <= slab[slot].prev < |slab| && slab[slot].prev in live)
    ensures StorageOn(Released(slab, slot, freeHead), live - {slot}, [slot] + free, slot)
  {
    var slab' := Released(slab, slot, freeHead);
    var free' := [slot] + free;
    assert forall i :: 0 <= i < |free| ==> free[i] in free;
    forall i | 0 <= i < |free'|
      ensures slab'[free'[i]].next == if i + 1 < |free'| then free'[i + 1] else NIL
    {
      if i > 0 {
        assert free'[i] == free[i - 1] && slab'[free[i - 1]] == slab[free[i - 1]];
      }
    }
  }

  /** Where a live order stands: a position in its level's queue, with live neighbours. */
  lemma LiveStands(slab: Slab, live: set<nat>, side: Side, queues: Queues, levels: map<Price, LevelSlot>,
                   slots: seq<nat>, slot: nat) returns (i: nat)
    requires SideOkOn(slab, live, side, queues, levels, slots)
    requires slot in live && slot < |slab| && slab[slot].order.side == side
    ensures var p := slab[slot].order.price;
            && p in levels && p in queues && i < |queues[p]| && queues[p][i] == slot
    ensures slab[slot].next == NIL || (0 <= slab[slot].next < |slab| && slab[slot].next in live)
    ensures slab[slot].prev == NIL || (0 <= slab[slot].prev < |slab| && slab[slot].prev in live)
  {
    var p := slab[slot].order.price;
    i :| 0 <= i < |queues[p]| && queues[p][i] == slot;
    Neighbours(slab, side, p, queues[p], levels[p], i);
  }

  lemma RemoveKeepsSide(slab: Slab, live: set<nat>, side: Side, queues: Queues, levels: map<Price, LevelSlot>,
                        slots: seq<nat>, slot: nat, i: nat, j: nat, p: Price, level': LevelSlot, freeHead: int)
    requires SideOkOn(slab, live, side, queues, levels, slots) && LiveInSlab(slab, live)
    requires p in queues && i < |queues[p]| && queues[p][i] == slot && slot < |slab|
    requires j < |slots| && slots[j] == slot
    requires level' == UnlinkedLevel(levels[p], slab[slot].next, slab[slot].prev)
    ensures slab[slot].next == NIL || 0 <= slab[slot].next < |slab|
    ensures slab[slot].prev == NIL || 0 <= slab[slot].prev < |slab|
    ensures InSlab(slab, slots)
    ensures var slab' := Released(slab, slot, freeHead); var slots' := slots[..j] + slots[j + 1..];
            && SideOkOn(slab', live - {slot}, side, Dequeued(queues, p, i), Delisted(levels, p, level'), slots')
            && Orders(slab', slots') == WithoutAt(Orders(slab, slots), j)
  {
    hide SideLinked, Flattened, Released, Dequeued, Delisted;
    SideSlots(slab, live, side, queues, levels, slots);
    UnlinkSide(slab, live, side, queues, levels, p, i, slot, level');
    UnlinkKeepsFlat(slab, live, side, queues, levels, slots, j, p, i);
    ReleasedOrders(slab, slot, freeHead);
    SlabKeepsFlat(slab, Released(slab, slot, freeHead), side, Dequeued(queues, p, i), slots[..j] + slots[j + 1..]);
    ReleaseKeepsLinks(slab, live - {slot}, side, Dequeued(queues, p, i), Delisted(levels, p, level'), slot, freeHead);
  }

  lemma ReleaseKeepsLinks(slab: Slab, live: set<nat>, side: Side, queues: Queues, levels: map<Price, LevelSlot>,
                          slot: nat, freeHead: int)
    requires slot < |slab| && slot !in live
    requires slab[slot].next == NIL || 0 <= slab[slot].next < |slab|
    requires slab[slot].prev == NIL || 0 <= slab[slot].prev < |slab|
    requires SideLinked(Unlinked(slab, slot), live, side, queues, levels) && LiveInSlab(slab, live)
    ensures SideLinked(Released(slab, slot, freeHead), live, side, queues, levels)
  {
    SideFrame(Unlinked(slab, slot), Released(slab, slot, freeHead), live, side, queues, levels);
  }

  lemma RemoveKeepsOtherSide(slab: Slab, live: set<nat>, side: Side, queues: Queues, levels: map<Price, LevelSlot>,
                             slots: seq<nat>, slot: nat, i: nat, p: Price, q: seq<nat>, level: LevelSlot,
                             freeHead: int)
    requires SideOkOn(slab, live, side, queues, levels, slots) && LiveInSlab(slab, live)
    requires QueueLinked(slab, side.Opposite(), p, q, level) && i < |q| && q[i] == slot
    ensures slab[slot].next == NIL || 0 <= slab[slot].next < |slab|
    ensures slab[slot].prev == NIL || 0 <= slab[slot].prev < |slab|
    ensures InSlab(slab, slots)
    ensures SideOkOn(Released(slab, slot, freeHead), live - {slot}, side, queues, levels, slots)
    ensures Orders(Released(slab, slot, freeHead), slots) == Orders(slab, slots)
  {
    hide SideLinked, Flattened, Released;
    assert slot < |slab| by {
      Neighbours(slab, side.Opposite(), p, q, level, i);
    }
    hide QueueLinked;
    SideSlots(slab, live, side, queues, levels, slots);
    UnlinkOtherSide(slab, live, side, queues, levels, p, q, level, i);
    ReleasedOrders(slab, slot, freeHead);
    SlabKeepsFlat(slab, Released(slab, slot, freeHead), side, queues, slots);
    ReleaseKeepsLinks(slab, live - {slot}, side, queues, levels, slot, freeHead);
  }

  /** Unlinking and releasing a slot keeps both sides and the free chain in order. */
  lemma RemoveKeepsBook(slab: Slab, live: set<nat>, free: seq<nat>, freeHead: int, side: Side,
                        queues: Queues, queues': Queues, levels: map<Price, LevelSlot>, levels': map<Price, LevelSlot>,
                        slots: seq<nat>, slots': seq<nat>, slot: nat, j: nat, p: Price, level': LevelSlot)
    returns (i: nat)
    requires StorageOn(slab, live, free, freeHead)
    requires SideOkOn(slab, live, side, queues, levels, slots)
    requires SideOkOn(slab, live, side.Opposite(), queues', levels', slots')
    requires slot in live && slot < |slab| && slab[slot].order.side == side && slab[slot].order.price == p
    requires j < |slots| && slots[j] == slot
    requires p in levels && level' == UnlinkedLevel(levels[p], slab[slot].next, slab[slot].prev)
    ensures slab[slot].next == NIL || 0 <= slab[slot].next < |slab|
    ensures slab[slot].prev == NIL || 0 <= slab[slot].prev < |slab|
    ensures InSlab(slab, slots) && InSlab(slab, slots')
    ensures p in queues && i < |queues[p]| && queues[p][i] == slot
    ensures var slab1 := Released(slab, slot, freeHead); var slots1 := slots[..j] + slots[j + 1..];
            && SameOrders(slab, slab1)
            && StorageOn(slab1, live - {slot}, [slot] + free, slot)
            && SideOkOn(slab1, live - {slot}, side, Dequeued(queues, p, i), Delisted(levels, p, level'), slots1)
            && SideOkOn(slab1, live - {slot}, side.Opposite(), queues', levels', slots')
            && Orders(slab1, slots1) == WithoutAt(Orders(slab, slots), j)
            && Orders(slab1, slots') == Orders(slab, slots')
  {
    i := LiveStands(slab, live, side, queues, levels, slots, slot);
    assert LiveInSlab(slab, live);
    assert QueueLinked(slab, side, p, queues[p], levels[p]);
    RemoveKeepsAll(slab, live, free, freeHead, side, queues, queues', levels, levels', slots, slots', slot, i, j, p,
                   level');
  }

  lemma RemoveKeepsAll(slab: Slab, live: set<nat>, free: seq<nat>, freeHead: int, side: Side,
                       queues: Queues, queues': Queues, levels: map<Price, LevelSlot>, levels': map<Price, LevelSlot>,
                       slots: seq<nat>, slots': seq<nat>, slot: nat, i: nat, j: nat, p: Price, level': LevelSlot)
    requires StorageOn(slab, live, free, freeHead) && LiveInSlab(slab, live)
    requires SideOkOn(slab, live, side, queues, levels, slots)
    requires SideOkOn(slab, live, side.Opposite(), queues', levels', slots')
    requires slot in live && slot < |slab|
    requires j < |slots| && slots[j] == slot
    requires p in queues && p in levels && i < |queues[p]| && queues[p][i] == slot
    requires QueueLinked(slab, side, p, queues[p], levels[p])
    requires level' == UnlinkedLevel(levels[p], slab[slot].next, slab[slot].prev)
    requires slab[slot].next == NIL || (0 <= slab[slot].next < |slab| && slab[slot].next in live)
    requires slab[slot].prev == NIL || (0 <= slab[slot].prev < |slab| && slab[slot].prev in live)
    ensures InSlab(slab, slots) && InSlab(slab, slots')
    ensures var slab1 := Released(slab, slot, freeHead); var slots1 := slots[..j] + slots[j + 1..];
            && SameOrders(slab, slab1)
            && StorageOn(slab1, live - {slot}, [slot] + free, slot)
            && SideOkOn(slab1, live - {slot}, side, Dequeued(queues, p, i), Delisted(levels, p, level'), slots1)
            && SideOkOn(slab1, live - {slot}, side.Opposite(), queues', levels', slots')
            && Orders(slab1, slots1) == WithoutAt(Orders(slab, slots), j)
            && Orders(slab1, slots') == Orders(slab, slots')
  {
    hide SideOkOn, StorageOn, QueueLinked, Released, Dequeued, Delisted, SameOrders, WithoutAt, LiveInSlab;
    ReleasedOrders(slab, slot, freeHead);
    RemoveKeepsStorage(slab, live, free, freeHead, slot);
    RemoveKeepsSide(slab, live, side, queues, levels, slots, slot, i, j, p, level', freeHead);
    RemoveKeepsOtherSide(slab, live, side.Opposite(), queues', levels', slots', slot, i, p, queues[p], levels[p],
                         freeHead);
  }

  /** Only `side` changed, and there only the order at the place of `slot`. */
  ghost predicate EditedAt(before: BookView, after: BookView, side: Side, slots: seq<nat>, slot: nat, order: BookOrder)
  {
    && |before.Orders(side)| == |slots|
    && (forall j :: 0 <= j < |slots| && slots[j] == slot ==> after.Orders(side) == before.Orders(side)[j := order])
    && after.Orders(side.Opposite()) == before.Orders(side.Opposite())
  }

  lemma EditKeepsStorage(slab: Slab, live: set<nat>, free: seq<nat>, freeHead: int, slot: nat, order: BookOrder)
    requires StorageOn(slab, live, free, freeHead) && slot < |slab|
    ensures StorageOn(slab[slot := slab[slot].(order := order)], live, free, freeHead)
  {
  }

  lemma EditKeepsLinks(slab: Slab, live: set<nat>, side: Side, queues: Queues, levels: map<Price, LevelSlot>,
                       slot: nat, order: BookOrder)
    requires SideLinked(slab, live, side, queues, levels) && slot < |slab|
    requires order.side == slab[slot].order.side && order.price == slab[slot].order.price
    ensures SideLinked(slab[slot := slab[slot].(order := order)], live, side, queues, levels)
  {
    var slab' := slab[slot := slab[slot].(order := order)];
    forall p | p in queues ensures QueueLinked(slab', side, p, queues[p], levels[p]) {
      assert QueueLinked(slab, side, p, queues[p], levels[p]);
      forall i | 0 <= i < |queues[p]| ensures StandsAt(slab', side, p, queues[p], i) {
        assert StandsAt(slab, side, p, queues[p], i);
      }
    }
  }

  lemma EditKeepsSide(slab: Slab, live: set<nat>, side: Side, queues: Queues, levels: map<Price, LevelSlot>,
                      slots: seq<nat>, slot: nat, order: BookOrder, j: nat)
    requires SideOkOn(slab, live, side, queues, levels, slots) && slot < |slab|
    requires order.side == slab[slot].order.side && order.price == slab[slot].order.price
    requires order.side == side ==> j < |slots| && slots[j] == slot
    ensures InSlab(slab, slots)
    ensures var slab' := slab[slot := slab[slot].(order := order)];
            && SideOkOn(slab', live, side, queues, levels, slots)
            && Orders(slab', slots)
                 == if side == order.side then Orders(slab, slots)[j := order] else Orders(slab, slots)
  {
    EditKeepsLinks(slab, live, side, queues, levels, slot, order);
    FlattenFrame(slab, slab[slot := slab[slot].(order := order)], side, queues, slots);
    EditedOrders(slab, live, side, queues, levels, slots, slot, order, j);
  }

  lemma ListedSlots(slab: Slab, live: set<nat>, side: Side, queues: Queues, levels: map<Price, LevelSlot>,
                    slots: seq<nat>)
    requires SideOkOn(slab, live, side, queues, levels, slots)
    ensures forall s :: s in slots <==> s in live && s < |slab| && slab[s].order.side == side
  {
    SlotsAreLive(slab, live, side, queues, levels, slots);
  }

  lemma EditedOrders(slab: Slab, live: set<nat>, side: Side, queues: Queues, levels: map<Price, LevelSlot>,
                     slots: seq<nat>, slot: nat, order: BookOrder, j: nat)
    requires SideOkOn(slab, live, side, queues, levels, slots) && slot < |slab|
    requires order.side == slab[slot].order.side
    requires order.side == side ==> j < |slots| && slots[j] == slot
    ensures InSlab(slab, slots)
    ensures Orders(slab[slot := slab[slot].(order := order)], slots)
              == if side == order.side then Orders(slab, slots)[j := order] else Orders(slab, slots)
  {
    hide SideOkOn;
    SideSlots(slab, live, side, queues, levels, slots);
    ListedSlots(slab, live, side, queues, levels, slots);
    SlotsDistinct(slab, live, side, queues, levels, slots);
    assert forall i :: 0 <= i < |slots| ==> slots[i] in slots;
  }

  lemma SlotsDistinct(slab: Slab, live: set<nat>, side: Side, queues: Queues, levels: map<Price, LevelSlot>,
                      slots: seq<nat>)
    requires SideOkOn(slab, live, side, queues, levels, slots)
    ensures Distinct(slots)
  {
    forall i, j | 0 <= i < j < |slots| ensures slots[i] != slots[j] {
      NotAhead(slab, live, side, queues, levels, slots, j);
      assert slots[..j][i] == slots[i];
    }
  }

  lemma NotAhead(slab: Slab, live: set<nat>, side: Side, queues: Queues, levels: map<Price, LevelSlot>,
                 slots: seq<nat>, j: nat)
    requires SideOkOn(slab, live, side, queues, levels, slots) && j < |slots|
    ensures slots[j] !in slots[..j]
  {
    var p := slab[slots[j]].order.price;
    SlotPrice(slab, side, queues, slots, j);
    AtPriceRemove(slab, slots, j, p);
    AtPriceMembers(slab, slots[..j], p);
    hide AtPrice;
    var a := AtPrice(slab, slots[..j], p);
    assert slots == slots[..j] + slots[j..];
    AtPriceConcat(slab, slots[..j], slots[j..], p);
    assert QueueLinked(slab, side, p, queues[p], levels[p]);
    forall x | 0 <= x < |a| ensures a[x] != slots[j] {
      assert queues[p][x] == a[x] && queues[p][|a|] == slots[j];
    }
  }

  lemma NoLevels(levels: map<Price, LevelSlot>)
    requires forall p :: p !in levels
    ensures levels == map[]
  {
    if levels.Keys != {} {
      var p := Member(levels.Keys);
    }
  }

  lemma EmptySide(slab: Slab, live: set<nat>, side: Side, queues: Queues, levels: map<Price, LevelSlot>,
                  slots: seq<nat>)
    requires SideOkOn(slab, live, side, queues, levels, slots)
    ensures levels == map[] <==> slots == []
  {
    if slots != [] {
      SlotPrice(slab, side, queues, slots, 0);
    }
    assert forall p :: p in levels ==> queues[p] != [] && AtPrice(slab, slots, p) == queues[p];
    if slots == [] {
      NoLevels(levels);
    }
  }

  lemma BestSlot(slab: Slab, live: set<nat>, side: Side, queues: Queues, levels: map<Price, LevelSlot>,
                 slots: seq<nat>, p: Price)
    requires SideOkOn(slab, live, side, queues, levels, slots) && IsBest(side, p, levels.Keys)
    ensures slots != [] && levels[p].head == slots[0]
    ensures slots[0] in live && slots[0] < |slab|
    ensures slab[slots[0]].order.side == side && slab[slots[0]].order.price == p
  {
    BestHeads(slab, side, queues, levels, live, slots, p);
  }

  /** What the pre-check will answer, given what it has added up before reaching position j. */
  ghost function Outlook(s: seq<BookOrder>, j: nat, side: Side, limit: Price, quantity: Quantity, total: nat): nat
    requires j <= |s| && (total < quantity || total == 0)
  {
    total + CrossableQuantity(s[j..], side, limit, quantity - total)
  }

  /** One order further into the pre-check. */
  lemma OutlookStep(s: seq<BookOrder>, j: nat, side: Side, limit: Price, quantity: Quantity, total: nat)
    requires j < |s| && (total < quantity || total == 0) && Crosses(side, limit, s[j].price)
    ensures var total' := total + s[j].remainingQuantity;
            Outlook(s, j, side, limit, quantity, total)
              == if total' >= quantity then total' else Outlook(s, j + 1, side, limit, quantity, total')
  {
    assert s[j..][1..] == s[j + 1..];
  }

  lemma OutlookEnds(s: seq<BookOrder>, j: nat, side: Side, limit: Price, quantity: Quantity, total: nat)
    requires j <= |s| && (total < quantity || total == 0)
    requires j < |s| ==> !Crosses(side, limit, s[j].price)
    ensures Outlook(s, j, side, limit, quantity, total) == total
  {
  }

  lemma OutlookStarts(s: seq<BookOrder>, side: Side, limit: Price, quantity: Quantity)
    ensures Outlook(s, 0, side, limit, quantity, 0) == CrossableQuantity(s, side, limit, quantity)
  {
    assert s[0..] == s;
  }

  lemma SegmentReads(slab: Slab, live: set<nat>, side: Side, queues: Queues, levels: map<Price, LevelSlot>,
                     slots: seq<nat>, k: nat, p: Price)
    requires SideOkOn(slab, live, side, queues, levels, slots) && p in levels && AtLevel(slab, side, slots, k, p)
    ensures p in queues && queues[p] != [] && k + |queues[p]| <= |slots| && slots[k..k + |queues[p]|] == queues[p]
    ensures InSlab(slab, slots) && QueueLinked(slab, side, p, queues[p], levels[p])
  {
    LevelSegment(slab, side, queues, slots, k, p);
    assert QueueLinked(slab, side, p, queues[p], levels[p]);
  }

  lemma QueueHead(slab: Slab, side: Side, p: Price, q: seq<nat>, level: LevelSlot)
    requires QueueLinked(slab, side, p, q, level)
    ensures q != [] && level.head == q[0]
  {
  }

  /** Reading the i-th order of the level that starts at position k of the priority order. */
  lemma QueueReads(slab: Slab, side: Side, p: Price, q: seq<nat>, level: LevelSlot, slots: seq<nat>, k: nat, i: nat)
    requires QueueLinked(slab, side, p, q, level) && i < |q|
    requires InSlab(slab, slots) && k + |q| <= |slots| && slots[k..k + |q|] == q
    ensures q[i] < |slab| && slab[q[i]].order.price == p
    ensures slab[q[i]].next == if i + 1 < |q| then q[i + 1] else NIL
    ensures Orders(slab, slots)[k + i] == slab[q[i]].order
  {
    Neighbours(slab, side, p, q, level, i);
    assert slots[k + i] == slots[k..k + |q|][i];
  }

  lemma ListedIsLive(slab: Slab, live: set<nat>, side: Side, queues: Queues, levels: map<Price, LevelSlot>,
                     slots: seq<nat>, slot: nat)
    requires SideOkOn(slab, live, side, queues, levels, slots) && slot in slots
    ensures slot in live && slot < |slab| && slab[slot].order.side == side
  {
    SlotsAreLive(slab, live, side, queues, levels, slots);
  }

  lemma ListedSlot(slab: Slab, live: set<nat>, side: Side, queues: Queues, levels: map<Price, LevelSlot>,
                   slots: seq<nat>, slot: nat)
    requires SideOkOn(slab, live, side, queues, levels, slots)
    requires slot in live && slot < |slab| && slab[slot].order.side == side
    ensures slot in slots
  {
    SlotsAreLive(slab, live, side, queues, levels, slots);
  }

  lemma StoredLevel(slab: Slab, live: set<nat>, side: Side, queues: Queues, levels: map<Price, LevelSlot>,
                    slots: seq<nat>, slot: nat)
    requires SideOkOn(slab, live, side, queues, levels, slots)
    requires slot in live && slot < |slab| && slab[slot].order.side == side
    ensures slab[slot].order.price in levels
  {
  }

  lemma SideSlots(slab: Slab, live: set<nat>, side: Side, queues: Queues, levels: map<Price, LevelSlot>,
                  slots: seq<nat>)
    requires SideOkOn(slab, live, side, queues, levels, slots)
    ensures InSlab(slab, slots)
  {
  }

  lemma NothingLinked(side: Side)
    ensures SideOkOn([], {}, side, map[], map[], []) && StorageOn([], {}, [], NIL)
  {
  }

  // ---------- the orders live handles name ----------

  ghost function NamedOn(slab: Slab, live: set<nat>): map<nat, BookOrder> {
    map h | h in live && h < |slab| :: slab[h].order
  }

  /** Every live slot still holds the order it held. */
  ghost predicate KeepsOrders(slab: Slab, slab': Slab, live: set<nat>) {
    forall s :: s in live ==> s < |slab| <= |slab'| && slab'[s].order == slab[s].order
  }

  lemma NamesGrow(slab: Slab, live: set<nat>, slab': Slab, handle: nat)
    requires LiveInSlab(slab, live) && KeepsOrders(slab, slab', live)
    requires handle < |slab'| && handle !in live
    ensures handle !in NamedOn(slab, live)
    ensures NamedOn(slab', live + {handle}) == NamedOn(slab, live)[handle := slab'[handle].order]
  {
  }

  lemma NamesShrink(slab: Slab, live: set<nat>, slab': Slab, handle: nat)
    requires SameOrders(slab, slab') && handle in live && handle < |slab|
    ensures handle in NamedOn(slab, live) && NamedOn(slab, live)[handle] == slab[handle].order
    ensures NamedOn(slab', live - {handle}) == NamedOn(slab, live) - {handle}
  {
  }

  lemma NamesEdit(slab: Slab, live: set<nat>, handle: nat, order: BookOrder)
    requires handle in live && handle < |slab|
    ensures handle in NamedOn(slab, live) && NamedOn(slab, live)[handle] == slab[handle].order
    ensures NamedOn(slab[handle := slab[handle].(order := order)], live) == NamedOn(slab, live)[handle := order]
  {
  }

  class MatchingBook {
    var slab: Slab
    var freeHead: int
    const bids: SideIndex
    const asks: SideIndex

    ghost var live: set<nat>
    ghost var free: seq<nat>
    ghost var bidQueues: Queues
    ghost var askQueues: Queues
    ghost var bidSlots: seq<nat>
    ghost var askSlots: seq<nat>
    ghost var Repr: set<object>

    function SideOf(side: Side): SideIndex {
      if side.Buy? then bids else asks
    }

    /** What the book means, side by side: the first-in-first-out queue of slots at each occupied price. */
    ghost function QueuesOf(side: Side): Queues
      reads this`bidQueues, this`askQueues
    {
      if side.Buy? then bidQueues else askQueues
    }

    /** The slots of one side in price-time priority. */
    ghost function SlotsOf(side: Side): seq<nat>
      reads this`bidSlots, this`askSlots
    {
      if side.Buy? then bidSlots else askSlots
    }

    /** The two price indexes are valid and share nothing with each other or with this object. */
    ghost predicate SidesOk()
      reads this`Repr, bids, asks, bids.Repr, asks.Repr
    {
      && this in Repr && bids in Repr && asks in Repr
      && bids.Repr <= Repr && asks.Repr <= Repr
      && this !in bids.Repr && this !in asks.Repr && bids.Repr !! asks.Repr
      && bids.Valid() && asks.Valid()
      && bids.side == Buy && asks.side == Sell
    }

    ghost predicate StorageOk()
      reads this
    {
      StorageOn(slab, live, free, freeHead)
    }

    ghost predicate LinkedOk()
      reads this, bids, asks
    {
      SideLinkedOk(Buy) && SideLinkedOk(Sell)
    }

    ghost predicate SideLinkedOk(side: Side)
      reads this, bids, asks
    {
      SideOkOn(slab, live, side, QueuesOf(side), SideOf(side).Levels, SlotsOf(side))
    }

    ghost method RecordSide(side: Side, queues: Queues, slots: seq<nat>)
      modifies this`bidQueues, this`askQueues, this`bidSlots, this`askSlots
      ensures QueuesOf(side) == queues && SlotsOf(side) == slots
      ensures QueuesOf(side.Opposite()) == old(QueuesOf(side.Opposite()))
      ensures SlotsOf(side.Opposite()) == old(SlotsOf(side.Opposite()))
    {
      if side.Buy? {
        bidQueues, bidSlots := queues, slots;
      } else {
        askQueues, askSlots := queues, slots;
      }
    }

    ghost predicate Valid()
      reads this, Repr
      ensures Valid() ==> this in Repr
    {
      && this in Repr && bids in Repr && asks in Repr && bids.Repr <= Repr && asks.Repr <= Repr
      && SidesOk() && StorageOk() && LinkedOk()
    }

    /** Both sides as sequences of orders in price-time priority. */
    ghost function View(): (view: BookView)
      requires Valid()
      reads this, Repr
      ensures forall side :: InSlab(slab, SlotsOf(side))
      ensures forall side :: view.Orders(side) == Orders(slab, SlotsOf(side))
    {
      BookView(Orders(slab, bidSlots), Orders(slab, askSlots))
    }

    lemma EmptyIsValid()
      requires this in Repr && bids in Repr && asks in Repr
      requires bids.Valid() && asks.Valid() && bids.side == Buy && asks.side == Sell
      requires Repr == {this} + bids.Repr + asks.Repr
      requires this !in bids.Repr && this !in asks.Repr && bids.Repr !! asks.Repr
      requires bids.Levels == map[] && asks.Levels == map[]
      requires slab == [] && freeHead == NIL && live == {} && free == []
      requires bidQueues == map[] && askQueues == map[] && bidSlots == [] && askSlots == []
      ensures Valid() && View() == EMPTY_BOOK
    {
      hide SideIndex.Valid, SideOkOn, StorageOn;
      NothingLinked(Buy);
      NothingLinked(Sell);
    }

    constructor (bandTicks: nat)
      requires bandTicks <= 64 * 64 * 64
      ensures Valid() && fresh(Repr)
      ensures live == {} && View() == EMPTY_BOOK
    {
      hide Valid, View, SideIndex.Valid;
      var bidIndex := new SideIndex(Buy, bandTicks);
      var askIndex := new SideIndex(Sell, bandTicks);
      bids, asks := bidIndex, askIndex;
      slab, freeHead := [], NIL;
      live, free := {}, [];
      bidQueues, askQueues := map[], map[];
      bidSlots, askSlots := [], [];
      Repr := {this} + bidIndex.Repr + askIndex.Repr;
      new;
      EmptyIsValid();
    }

    // ---------- slots ----------

    /** Reuses the most recently freed slot if there is one. */
    method AcquireSlot(order: BookOrder) returns (slot: nat)
      requires StorageOk()
      modifies this`slab, this`freeHead, this`free
      ensures slot !in live && slot < |slab| && slab[slot].order == order
      ensures old(free) != [] ==> slot == old(free)[0]
      ensures SlabGrew(old(slab), slab, slot)
      ensures StorageOn(slab, live + {slot}, free, freeHead)
      ensures LiveInSlab(old(slab), live)
    {
      if freeHead != NIL {
        slot := freeHead;
        assert slot == free[0] && free[0] < |slab|;
        freeHead := slab[slot].next;
        slab := slab[slot := slab[slot].(order := order)];
        free := free[1..];
      } else {
        slab := slab + [SlabOrder(order, NIL, NIL)];
        slot := |slab| - 1;
      }
    }

    /** release_slot, for a slot that unlink has just taken out of `before`. */
    method PutBack(ghost before: Slab, slot: nat)
      requires slot < |before| && slot < |slab|
      requires before[slot].next == NIL || 0 <= before[slot].next < |before|
      requires before[slot].prev == NIL || 0 <= before[slot].prev < |before|
      requires slab == Unlinked(before, slot)
      modifies this`slab, this`freeHead, this`free, this`live
      ensures slab == Released(before, slot, old(freeHead)) && freeHead == slot
      ensures free == [slot] + old(free) && live == old(live) - {slot}
    {
      slab := slab[slot := slab[slot].(next := freeHead)];
      freeHead := slot;
      free := [slot] + free;
      live := live - {slot};
    }

    method LinkBack(level: LevelSlot, slot: nat) returns (level': LevelSlot)
      requires slot < |slab| && (level.tail == NIL || 0 <= level.tail < |slab|)
      modifies this`slab
      ensures slab == LinkedBack(old(slab), level, slot)
      ensures level' == LevelSlot(if level.tail == NIL then slot else level.head, slot)
    {
      slab := slab[slot := slab[slot].(next := NIL, prev := level.tail)];
      var head := level.head;
      if level.tail == NIL {
        head := slot;
      } else {
        slab := slab[level.tail := slab[level.tail].(next := slot)];
      }
      level' := LevelSlot(head, slot);
    }

    /** A level of one order comes back with no head. */
    method Unlink(level: LevelSlot, slot: nat) returns (level': LevelSlot)
      requires slot < |slab|
      requires slab[slot].next == NIL || 0 <= slab[slot].next < |slab|
      requires slab[slot].prev == NIL || 0 <= slab[slot].prev < |slab|
      modifies this`slab
      ensures slab == Unlinked(old(slab), slot)
      ensures level' == UnlinkedLevel(level, old(slab)[slot].next, old(slab)[slot].prev)
    {
      var next, prev := slab[slot].next, slab[slot].prev;
      var head, tail := level.head, level.tail;
      if prev == NIL {
        head := next;
      } else {
        slab := slab[prev := slab[prev].(next := next)];
      }
      if next == NIL {
        tail := prev;
      } else {
        slab := slab[next := slab[next].(prev := prev)];
      }
      level' := LevelSlot(head, tail);
    }

    // ---------- levels ----------

    /** The level at this price, created empty if there is none. */
    method OpenLevel(side: Side, price: Price) returns (level: LevelSlot)
      requires SidesOk()
      modifies this`Repr, SideOf(side).Repr
      ensures SidesOk() && fresh(Repr - old(Repr)) && fresh(SideOf(side).Repr - old(SideOf(side).Repr))
      ensures price in SideOf(side).Levels && level == SideOf(side).Levels[price]
      ensures var levels := old(SideOf(side).Levels);
              SideOf(side).Levels == if price in levels then levels else levels[price := EMPTY_LEVEL]
      ensures SideOf(side.Opposite()).Levels == old(SideOf(side.Opposite()).Levels)
    {
      var index := SideOf(side);
      index.LevelFor(price);
      Repr := Repr + index.Repr;
      level := index.LevelAt(price);
    }

    method WriteLevel(side: Side, price: Price, level: LevelSlot)
      requires SidesOk() && price in SideOf(side).Levels
      modifies SideOf(side).Repr
      ensures SidesOk() && Repr == old(Repr)
      ensures SideOf(side).Levels == old(SideOf(side).Levels)[price := level]
      ensures SideOf(side.Opposite()).Levels == old(SideOf(side.Opposite()).Levels)
    {
      var index := SideOf(side);
      index.StoreLevel(price, level);
    }

    method DropLevel(side: Side, price: Price)
      requires SidesOk() && price in SideOf(side).Levels
      modifies SideOf(side).Repr
      ensures SidesOk() && Repr == old(Repr)
      ensures SideOf(side).Levels == old(SideOf(side).Levels) - {price}
      ensures SideOf(side.Opposite()).Levels == old(SideOf(side.Opposite()).Levels)
    {
      var index := SideOf(side);
      index.EraseLevel(price);
    }

    // ---------- operations ----------

    /** link_back into the level at this price, created first if there is none. */
    method LinkIn(side: Side, price: Price, slot: nat, ghost level: LevelSlot)
      requires SidesOk() && slot < |slab|
      requires level == if price in SideOf(side).Levels then SideOf(side).Levels[price] else EMPTY_LEVEL
      requires level.tail == NIL || 0 <= level.tail < |slab|
      modifies this`Repr, this`slab, SideOf(side).Repr
      ensures SidesOk() && fresh(Repr - old(Repr))
      ensures slab == LinkedBack(old(slab), level, slot)
      ensures SideOf(side).Levels
                == old(SideOf(side).Levels)[price := LevelSlot(if level.tail == NIL then slot else level.head, slot)]
      ensures SideOf(side.Opposite()).Levels == old(SideOf(side.Opposite()).Levels)
    {
      hide LinkedBack;
      var target := OpenLevel(side, price);
      var level' := LinkBack(target, slot);
      WriteLevel(side, price, level');
    }

    /** The newcomer queues behind every order of its price; nothing live changes its handle. */
    method Add(order: BookOrder) returns (handle: nat)
      requires Valid()
      modifies Repr
      ensures Valid() && fresh(Repr - old(Repr))
      ensures handle !in old(live) && live == old(live) + {handle}
      ensures handle < |slab| && slab[handle].order == order
      ensures LiveInSlab(old(slab), old(live)) && KeepsOrders(old(slab), slab, old(live))
      ensures QueuesOf(order.side) == Queued(old(QueuesOf(order.side)), order.price, handle)
      ensures QueuesOf(order.side.Opposite()) == old(QueuesOf(order.side.Opposite()))
      ensures View() == old(View()).With(order.side, Insert(old(View()).Orders(order.side), order))
    {
      hide SideOkOn, StorageOn, LinkedBack, SlabGrew, LiveInSlab, Insert, Queued, Slotted, SideIndex.Valid, QueuesOf, SlotsOf;
      ghost var side, other := order.side, order.side.Opposite();
      ghost var slab0, levels, levels' := slab, SideOf(side).Levels, SideOf(other).Levels;
      handle := AcquireSlot(order);
      ghost var slab1 := slab;
      AcquireKeepsSide(slab0, slab1, live, side, QueuesOf(side), levels, SlotsOf(side), handle);
      AcquireKeepsSide(slab0, slab1, live, other, QueuesOf(other), levels', SlotsOf(other), handle);
      ghost var level := if order.price in levels then levels[order.price] else EMPTY_LEVEL;
      JoinedLevel(slab1, live, side, QueuesOf(side), levels, SlotsOf(side), order.price, level);
      LinkIn(order.side, order.price, handle, level);
      AddKeepsBook(slab0, slab1, live, free, freeHead, side, QueuesOf(side), QueuesOf(other), levels, levels',
                   SlotsOf(side), SlotsOf(other), handle, level);
      RecordSide(side, Queued(QueuesOf(side), order.price, handle), Slotted(slab1, side, SlotsOf(side), handle));
      live := live + {handle};
    }

    lemma LiveIsListed(handle: nat)
      requires Valid() && handle in live
      ensures handle < |slab| && handle in SlotsOf(slab[handle].order.side)
    {
      hide SideOkOn, SideIndex.Valid;
      assert LiveInSlab(slab, live);
      ListedSlot(slab, live, slab[handle].order.side, QueuesOf(slab[handle].order.side),
                 SideOf(slab[handle].order.side).Levels, SlotsOf(slab[handle].order.side), handle);
    }

    /** A live slot is queued once and once only: on its own order's side, at its own order's price. */
    lemma LiveStandsOnce(handle: nat, side: Side, p: Price)
      requires Valid() && handle in live
      ensures handle < |slab|
      ensures (p in QueuesOf(side) && handle in QueuesOf(side)[p])
              <==> (side == slab[handle].order.side && p == slab[handle].order.price)
      ensures forall i, j :: 0 <= i < j < |SlotsOf(side)| ==> !(SlotsOf(side)[i] == handle == SlotsOf(side)[j])
    {
      hide SideIndex.Valid, Flattened, Partitioned;
      LiveIsListed(handle);
      assert SideLinkedOk(side) && SideLinkedOk(slab[handle].order.side);
      SlotsDistinct(slab, live, side, QueuesOf(side), SideOf(side).Levels, SlotsOf(side));
      if p in QueuesOf(side) && handle in QueuesOf(side)[p] {
        var i :| 0 <= i < |QueuesOf(side)[p]| && QueuesOf(side)[p][i] == handle;
        assert StandsAt(slab, side, p, QueuesOf(side)[p], i);
      }
    }

    /** The order each live handle names. */
    ghost function Named(): map<nat, BookOrder>
      reads this`live, this`slab
    {
      NamedOn(slab, live)
    }

    /** The position of a live order in its side's priority order. */
    ghost function Position(handle: nat): (j: nat)
      requires Valid() && handle in live
      reads this, Repr
      ensures handle < |slab|
      ensures var slots := SlotsOf(slab[handle].order.side); j < |slots| && slots[j] == handle
    {
      hide SidesOk, StorageOk, LinkedOk;
      LiveIsListed(handle);
      var j :| 0 <= j < |SlotsOf(slab[handle].order.side)| && SlotsOf(slab[handle].order.side)[j] == handle;
      j
    }

    /** unlink from the level at this price, erasing the level if that empties it. */
    method UnlinkFrom(side: Side, price: Price, slot: nat)
      requires SidesOk() && slot < |slab| && price in SideOf(side).Levels
      requires slab[slot].next == NIL || 0 <= slab[slot].next < |slab|
      requires slab[slot].prev == NIL || 0 <= slab[slot].prev < |slab|
      modifies this`slab, SideOf(side).Repr
      ensures SidesOk()
      ensures slab == Unlinked(old(slab), slot)
      ensures var levels := old(SideOf(side).Levels);
              SideOf(side).Levels
                == Delisted(levels, price, UnlinkedLevel(levels[price], old(slab)[slot].next, old(slab)[slot].prev))
      ensures SideOf(side.Opposite()).Levels == old(SideOf(side.Opposite()).Levels)
    {
      hide Unlinked, SideIndex.Valid;
      var index := SideOf(side);
      var level := index.LevelAt(price);
      var level' := Unlink(level, slot);
      if level'.head == NIL {
        DropLevel(side, price);
      } else {
        WriteLevel(side, price, level');
      }
    }

    /** Takes a live order out, from any position in its queue; its handle is dead afterwards. */
    method TakeOut(slot: nat, ghost j: nat)
      requires Valid() && slot in live && slot < |slab|
      requires var slots := SlotsOf(slab[slot].order.side); j < |slots| && slots[j] == slot
      modifies Repr
      ensures Valid() && Repr == old(Repr)
      ensures live == old(live) - {slot} && free == [slot] + old(free)
      ensures SameOrders(old(slab), slab)
      ensures var o := old(slab)[slot].order; var queues := old(QueuesOf(o.side));
              && o.price in queues
              && (exists i :: 0 <= i < |queues[o.price]| && queues[o.price][i] == slot
                              && QueuesOf(o.side) == Dequeued(queues, o.price, i))
              && QueuesOf(o.side.Opposite()) == old(QueuesOf(o.side.Opposite()))
      ensures var side := old(slab)[slot].order.side;
              && j < |old(View()).Orders(side)|
              && View().Orders(side) == WithoutAt(old(View()).Orders(side), j)
              && View().Orders(side.Opposite()) == old(View()).Orders(side.Opposite())
    {
      hide SideOkOn, StorageOn, Released, Dequeued, Delisted, SameOrders, WithoutAt, QueuesOf, SlotsOf, SideIndex.Valid;
      var side, price := slab[slot].order.side, slab[slot].order.price;
      ghost var slab0, levels, levels' := slab, SideOf(side).Levels, SideOf(side.Opposite()).Levels;
      ghost var queues, slots := QueuesOf(side), SlotsOf(side);
      StoredLevel(slab, live, side, queues, levels, slots, slot);
      ghost var i := RemoveKeepsBook(slab, live, free, freeHead, side, queues, QueuesOf(side.Opposite()), levels, levels',
                                     slots, SlotsOf(side.Opposite()), slot, j, price,
                                     UnlinkedLevel(levels[price], slab[slot].next, slab[slot].prev));
      UnlinkFrom(side, price, slot);
      PutBack(slab0, slot);
      RecordSide(side, Dequeued(queues, price, i), slots[..j] + slots[j + 1..]);
    }

    /** Removes the order this handle locates and returns it. */
    method RemoveAt(handle: nat) returns (removed: BookOrder)
      requires Valid() && handle in live
      modifies Repr
      ensures Valid() && Repr == old(Repr)
      ensures handle < |old(slab)| && removed == old(slab)[handle].order
      ensures live == old(live) - {handle} && SameOrders(old(slab), slab)
      ensures var j := old(Position(handle));
              && j < |old(View()).Orders(removed.side)|
              && View().Orders(removed.side) == WithoutAt(old(View()).Orders(removed.side), j)
              && View().Orders(removed.side.Opposite()) == old(View()).Orders(removed.side.Opposite())
    {
      hide SidesOk, StorageOk, LinkedOk, SameOrders, WithoutAt;
      ghost var j := Position(handle);
      removed := slab[handle].order;
      TakeOut(handle, j);
    }

    /** Both sides of the book after one order's fields changed but not its side or price. */
    lemma EditKeeps(slot: nat, order: BookOrder, slab': Slab)
      requires Valid() && slot in live && slot < |slab|
      requires order.side == slab[slot].order.side && order.price == slab[slot].order.price
      requires slab' == slab[slot := slab[slot].(order := order)]
      ensures StorageOn(slab', live, free, freeHead)
      ensures forall side :: SideOkOn(slab', live, side, QueuesOf(side), SideOf(side).Levels, SlotsOf(side))
      ensures InSlab(slab', bidSlots) && InSlab(slab', askSlots)
      ensures EditedAt(View(), BookView(Orders(slab', bidSlots), Orders(slab', askSlots)), order.side,
                       SlotsOf(order.side), slot, order)
    {
      hide SidesOk, SideOkOn, StorageOn;
      EditKeepsStorage(slab, live, free, freeHead, slot, order);
      var side, other := order.side, order.side.Opposite();
      assert SideLinkedOk(side) && SideLinkedOk(other);
      EditKeepsSide(slab, live, other, QueuesOf(other), SideOf(other).Levels, SlotsOf(other), slot, order, 0);
      EditKeepsSide(slab, live, side, QueuesOf(side), SideOf(side).Levels, SlotsOf(side), slot, order, Position(slot));
      forall j | 0 <= j < |SlotsOf(side)| && SlotsOf(side)[j] == slot
        ensures Orders(slab', SlotsOf(side)) == Orders(slab, SlotsOf(side))[j := order]
      {
        EditKeepsSide(slab, live, side, QueuesOf(side), SideOf(side).Levels, SlotsOf(side), slot, order, j);
      }
    }

    method EditOrder(slot: nat, order: BookOrder)
      requires Valid() && slot in live && slot < |slab|
      requires order.side == slab[slot].order.side && order.price == slab[slot].order.price
      modifies this`slab
      ensures Valid()
      ensures slab == old(slab)[slot := old(slab)[slot].(order := order)]
      ensures EditedAt(old(View()), View(), order.side, SlotsOf(order.side), slot, order)
    {
      hide SideOkOn, StorageOn, SideIndex.Valid, QueuesOf, EditedAt;
      EditKeeps(slot, order, slab[slot := slab[slot].(order := order)]);
      slab := slab[slot := slab[slot].(order := order)];
      assert SideLinkedOk(Buy) && SideLinkedOk(Sell);
    }

    /** The order stands where it stood. */
    method ReduceAt(handle: nat, newRemainingQuantity: Quantity)
      requires Valid() && handle in live
      modifies this`slab
      ensures Valid() && handle < |old(slab)|
      ensures var order := old(slab)[handle].order.(remainingQuantity := newRemainingQuantity);
              && slab == old(slab)[handle := old(slab)[handle].(order := order)]
              && EditedAt(old(View()), View(), order.side, SlotsOf(order.side), handle, order)
    {
      hide SidesOk, StorageOk, LinkedOk, EditedAt;
      LiveIsListed(handle);
      EditOrder(handle, slab[handle].order.(remainingQuantity := newRemainingQuantity));
    }

    method SetClientOrderIdAt(handle: nat, newClientOrderId: ClientOrderId)
      requires Valid() && handle in live
      modifies this`slab
      ensures Valid() && handle < |old(slab)|
      ensures var order := old(slab)[handle].order.(clientOrderId := newClientOrderId);
              && slab == old(slab)[handle := old(slab)[handle].(order := order)]
              && EditedAt(old(View()), View(), order.side, SlotsOf(order.side), handle, order)
    {
      hide SidesOk, StorageOk, LinkedOk, EditedAt;
      LiveIsListed(handle);
      EditOrder(handle, slab[handle].order.(clientOrderId := newClientOrderId));
    }

    function At(handle: nat): BookOrder
      requires Valid() && handle in live
      reads this, Repr
    {
      hide SidesOk, LinkedOk;
      slab[handle].order
    }

    /** A live handle names the order at its position in its side's priority order. */
    lemma AtStands(handle: nat)
      requires Valid() && handle in live
      ensures var order := At(handle);
              Position(handle) < |View().Orders(order.side)|
              && View().Orders(order.side)[Position(handle)] == order
    {
      hide SidesOk, StorageOk, LinkedOk;
    }

    // ---------- the best price and the front order ----------

    /** None when the side is empty; otherwise the price of the first order in priority order. */
    method BestPriceOf(side: Side) returns (best: Option<Price>)
      requires Valid()
      ensures best == var s := View().Orders(side); if s == [] then None else Some(s[0].price)
    {
      hide SideIndex.Valid, SideOkOn;
      var index := SideOf(side);
      SideReadsOut(side);
      if index.Empty() {
        best := None;
      } else {
        best := Some(index.BestPrice());
      }
    }

    /** A side is empty exactly when its index is; otherwise its best level starts its priority order. */
    lemma SideReadsOut(side: Side)
      requires Valid()
      ensures SideOf(side).Valid() && SideOf(side).side == side
      ensures SideOf(side).Levels == map[] <==> SlotsOf(side) == []
      ensures forall p :: IsBest(side, p, SideOf(side).Levels.Keys) ==>
                && SlotsOf(side) != [] && SideOf(side).Levels[p].head == SlotsOf(side)[0]
                && SlotsOf(side)[0] in live && SlotsOf(side)[0] < |slab|
                && slab[SlotsOf(side)[0]].order.side == side && slab[SlotsOf(side)[0]].order.price == p
    {
      hide SideIndex.Valid, SideOkOn;
      assert SideLinkedOk(side);
      EmptySide(slab, live, side, QueuesOf(side), SideOf(side).Levels, SlotsOf(side));
      forall p | IsBest(side, p, SideOf(side).Levels.Keys)
        ensures && SlotsOf(side) != [] && SideOf(side).Levels[p].head == SlotsOf(side)[0]
                && SlotsOf(side)[0] in live && SlotsOf(side)[0] < |slab|
                && slab[SlotsOf(side)[0]].order.side == side && slab[SlotsOf(side)[0]].order.price == p
      {
        BestSlot(slab, live, side, QueuesOf(side), SideOf(side).Levels, SlotsOf(side), p);
      }
    }

    /** The order the matching walk trades with next, if the side has any. */
    method FrontOfBest(side: Side) returns (front: Option<BookOrder>)
      requires Valid()
      ensures front == var s := View().Orders(side); if s == [] then None else Some(s[0])
    {
      hide SideIndex.Valid, SideOkOn;
      var index := SideOf(side);
      SideReadsOut(side);
      if index.Empty() {
        return None;
      }
      var head := index.LevelAt(index.BestPrice()).head;
      front := Some(slab[head].order);
    }

    lemma FrontSlot(side: Side)
      requires Valid() && View().Orders(side) != []
      ensures SlotsOf(side) != []
      ensures SlotsOf(side)[0] in live && SlotsOf(side)[0] < |slab|
      ensures slab[SlotsOf(side)[0]].order == View().Orders(side)[0]
    {
      hide SideIndex.Valid, SideOkOn;
      assert SideLinkedOk(side);
      ListedIsLive(slab, live, side, QueuesOf(side), SideOf(side).Levels, SlotsOf(side), SlotsOf(side)[0]);
    }

    method ReduceFront(side: Side, newRemainingQuantity: Quantity)
      requires Valid() && View().Orders(side) != []
      modifies this`slab
      ensures Valid() && |slab| == |old(slab)|
      ensures var s := old(View()).Orders(side);
              View().Orders(side) == s[0 := s[0].(remainingQuantity := newRemainingQuantity)]
      ensures View().Orders(side.Opposite()) == old(View()).Orders(side.Opposite())
      ensures old(SlotsOf(side)) != [] && old(SlotsOf(side))[0] < |old(slab)|
      ensures var head := old(SlotsOf(side))[0]; var order := old(slab)[head].order;
              slab == old(slab)[head := old(slab)[head].(order :=
                order.(remainingQuantity := newRemainingQuantity))]
    {
      hide SideIndex.Valid, SideOkOn, StorageOk, QueuesOf;
      var index := SideOf(side);
      SideReadsOut(side);
      var head := index.LevelAt(index.BestPrice()).head;
      EditOrder(head, slab[head].order.(remainingQuantity := newRemainingQuantity));
    }

    method RemoveFront(side: Side)
      requires Valid() && View().Orders(side) != []
      modifies Repr
      ensures Valid() && Repr == old(Repr)
      ensures old(SlotsOf(side)) != [] && live == old(live) - {old(SlotsOf(side))[0]}
      ensures SameOrders(old(slab), slab)
      ensures View().Orders(side) == old(View()).Orders(side)[1..]
      ensures View().Orders(side.Opposite()) == old(View()).Orders(side.Opposite())
    {
      hide SideIndex.Valid, SideOkOn, StorageOk, QueuesOf, SameOrders;
      var index := SideOf(side);
      SideReadsOut(side);
      var head := index.LevelAt(index.BestPrice()).head;
      TakeOut(head, 0);
    }

    // ---------- walking a side ----------

    /** What a walk knows on reaching the level at `price`, having passed the first k orders. */
    ghost predicate Reached(side: Side, k: nat, price: Option<Price>)
      requires Valid()
      reads this, Repr
    {
      && InSlab(slab, SlotsOf(side))
      && (price.None? ==> k == |SlotsOf(side)|)
      && (price.Some? ==> price.value in SideOf(side).Levels && AtLevel(slab, side, SlotsOf(side), k, price.value))
    }

    lemma WalkBegins(side: Side, p: Price)
      requires Valid() && IsBest(side, p, SideOf(side).Levels.Keys)
      ensures Reached(side, 0, Some(p))
    {
      assert SideLinkedOk(side);
      WalkStarts(slab, side, QueuesOf(side), SlotsOf(side), p);
    }

    /** The level at a reached price holds exactly the next slots in priority order. */
    lemma LevelReads(side: Side, k: nat, p: Price)
      requires Valid() && Reached(side, k, Some(p))
      ensures p in QueuesOf(side) && k + |QueuesOf(side)[p]| <= |SlotsOf(side)|
      ensures p in SideOf(side).Levels && QueuesOf(side)[p] != [] && InSlab(slab, SlotsOf(side))
      ensures SlotsOf(side)[k..k + |QueuesOf(side)[p]|] == QueuesOf(side)[p]
      ensures QueueLinked(slab, side, p, QueuesOf(side)[p], SideOf(side).Levels[p])
    {
      hide SideIndex.Valid, StorageOn, SideOkOn, QueueLinked, AtLevel, InSlab;
      assert SideLinkedOk(side);
      SegmentReads(slab, live, side, QueuesOf(side), SideOf(side).Levels, SlotsOf(side), k, p);
    }

    lemma WalkContinues(side: Side, k: nat, p: Price, next: Option<Price>)
      requires Valid() && Reached(side, k, Some(p)) && p in QueuesOf(side)
      requires next.None? ==> forall q :: q in SideOf(side).Levels ==> !Better(side, p, q)
      requires next.Some? ==> IsBest(side, next.value, WorseThan(side, SideOf(side).Levels.Keys, p))
      ensures Reached(side, k + |QueuesOf(side)[p]|, next)
      ensures next.None? ==> k + |QueuesOf(side)[p]| == |SlotsOf(side)|
    {
      hide SideIndex.Valid, StorageOn, QueueLinked, AtLevel, IsBest, WorseThan, InSlab;
      assert SideLinkedOk(side);
      WalkAdvances(slab, side, QueuesOf(side), SlotsOf(side), k, p, next);
    }

    /** Appends one level's orders, head to tail. */
    method ReadLevel(side: Side, p: Price, ghost k: nat, before: seq<BookOrder>) returns (result: seq<BookOrder>)
      requires Valid() && Reached(side, k, Some(p)) && p in QueuesOf(side)
      ensures k + |QueuesOf(side)[p]| <= |View().Orders(side)|
      ensures result == before + View().Orders(side)[k..k + |QueuesOf(side)[p]|]
    {
      hide Valid, View, Reached, QueueLinked, SideIndex.Valid, QueuesOf, SlotsOf, Orders;
      LevelReads(side, k, p);
      ghost var q, level, slots, i := QueuesOf(side)[p], SideOf(side).Levels[p], SlotsOf(side), 0;
      ghost var view := View().Orders(side);
      QueueHead(slab, side, p, q, level);
      SideReadsOut(side);
      var slot := SideOf(side).LevelAt(p).head;
      result := before;
      while slot != NIL
        invariant i <= |q| && slot == if i < |q| then q[i] else NIL
        invariant result == before + view[k..k + i]
        decreases |q| - i
      {
        QueueReads(slab, side, p, q, level, slots, k, i);
        result := result + [slab[slot].order];
        slot := slab[slot].next;
        i := i + 1;
      }
    }

    /** Every resting order of one side, best price first and in queue order within a price. */
    method AllOf(side: Side) returns (result: seq<BookOrder>)
      requires Valid()
      ensures result == View().Orders(side)
    {
      hide Valid, View, Reached, QueueLinked, SideIndex.Valid, QueuesOf, SlotsOf, Orders, IsBest, WorseThan, InSlab;
      var index := SideOf(side);
      SideReadsOut(side);
      result := [];
      if index.Empty() {
        return;
      }
      ghost var view := View().Orders(side);
      ghost var k := 0;
      var levelPrice := Some(index.BestPrice());
      WalkBegins(side, levelPrice.value);
      while levelPrice.Some?
        invariant k <= |view| && result == view[..k] && (levelPrice.None? ==> k == |view|)
        invariant Reached(side, k, levelPrice)
        decreases |view| - k, levelPrice.Some?
      {
        var p := levelPrice.value;
        LevelReads(side, k, p);
        result := ReadLevel(side, p, k, result);
        assert result == view[..k + |QueuesOf(side)[p]|];
        var next := index.NextPrice(p);
        WalkContinues(side, k, p, next);
        k := k + |QueuesOf(side)[p]|;
        levelPrice := next;
      }
    }

    /** Adds up one level's orders, stopping once `quantity` is covered. */
    method AddUpLevel(side: Side, p: Price, ghost k: nat, limit: Price, before: nat, quantity: Quantity)
      returns (total: nat)
      requires Valid() && Reached(side, k, Some(p)) && p in QueuesOf(side)
      requires Crosses(side.Opposite(), limit, p) && (before < quantity || before == 0)
      ensures k + |QueuesOf(side)[p]| <= |View().Orders(side)|
      ensures var view, inc := View().Orders(side), side.Opposite();
              Outlook(view, k, inc, limit, quantity, before)
                == if total >= quantity then total
                   else Outlook(view, k + |QueuesOf(side)[p]|, inc, limit, quantity, total)
    {
      hide Valid, View, Reached, QueueLinked, SideIndex.Valid, QueuesOf, SlotsOf, Orders, Outlook;
      LevelReads(side, k, p);
      ghost var q, level, slots, i := QueuesOf(side)[p], SideOf(side).Levels[p], SlotsOf(side), 0;
      ghost var view := View().Orders(side);
      QueueHead(slab, side, p, q, level);
      SideReadsOut(side);
      var slot := SideOf(side).LevelAt(p).head;
      total := before;
      while slot != NIL
        invariant i <= |q| && slot == if i < |q| then q[i] else NIL
        invariant total < quantity || (i == 0 && total == 0)
        invariant Outlook(view, k, side.Opposite(), limit, quantity, before)
                    == Outlook(view, k + i, side.Opposite(), limit, quantity, total)
        decreases |q| - i
      {
        QueueReads(slab, side, p, q, level, slots, k, i);
        OutlookStep(view, k + i, side.Opposite(), limit, quantity, total);
        total := total + slab[slot].order.remainingQuantity;
        if total >= quantity {
          return;
        }
        slot := slab[slot].next;
        i := i + 1;
      }
    }

    /** The fill-or-kill pre-check on the side an order limited at `price` would trade against. */
    method CrossableQuantityOn(side: Side, price: Price, quantity: Quantity) returns (total: nat)
      requires Valid()
      ensures total == CrossableQuantity(View().Orders(side), side.Opposite(), price, quantity)
    {
      hide Valid, View, Reached, QueueLinked, SideIndex.Valid, QueuesOf, SlotsOf, Orders, Outlook, CrossableQuantity, IsBest, WorseThan, InSlab;
      var index := SideOf(side);
      SideReadsOut(side);
      ghost var view, inc := View().Orders(side), side.Opposite();
      OutlookStarts(view, inc, price, quantity);
      total := 0;
      if index.Empty() {
        OutlookEnds(view, 0, inc, price, quantity, total);
        return;
      }
      ghost var k := 0;
      var levelPrice := Some(index.BestPrice());
      WalkBegins(side, levelPrice.value);
      while levelPrice.Some?
        invariant k <= |view| && (levelPrice.None? ==> k == |view|) && (total < quantity || total == 0)
        invariant Reached(side, k, levelPrice)
        invariant CrossableQuantity(view, inc, price, quantity) == Outlook(view, k, inc, price, quantity, total)
        decreases |view| - k, levelPrice.Some?
      {
        var p := levelPrice.value;
        LevelReads(side, k, p);
        if if side.Buy? then price > p else price < p {
          LevelPrice(side, k, p);
          OutlookEnds(view, k, inc, price, quantity, total);
          return;
        }
        total := AddUpLevel(side, p, k, price, total, quantity);
        if total >= quantity {
          return;
        }
        var next := index.NextPrice(p);
        WalkContinues(side, k, p, next);
        k := k + |QueuesOf(side)[p]|;
        levelPrice := next;
      }
      OutlookEnds(view, k, inc, price, quantity, total);
    }

    lemma LevelPrice(side: Side, k: nat, p: Price)
      requires Valid() && Reached(side, k, Some(p))
      ensures k < |View().Orders(side)| && View().Orders(side)[k].price == p
    {
      hide Valid, View, Reached, QueueLinked, SideIndex.Valid, QueuesOf, SlotsOf, Orders;
      LevelReads(side, k, p);
      QueueHead(slab, side, p, QueuesOf(side)[p], SideOf(side).Levels[p]);
      QueueReads(slab, side, p, QueuesOf(side)[p], SideOf(side).Levels[p], SlotsOf(side), k, 0);
    }
  }
}
