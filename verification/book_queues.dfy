/** The linked structure inside a matching book, on values: level queues threaded through the slab by index,
    the free list, and the flattening of a side's levels into one sequence in price-time priority. */
module BookQueues {
  import opened ExchangeTypes
  import opened MatchingModel
  import opened SideIndexes

  /** A slab cell: an order, and the cells before and behind it in its level. */
  datatype SlabOrder = SlabOrder(order: BookOrder, next: int, prev: int)

  type Slab = seq<SlabOrder>
  type Queues = map<Price, seq<nat>>

  ghost predicate InSlab(slab: Slab, slots: seq<nat>) {
    forall i :: 0 <= i < |slots| ==> slots[i] < |slab|
  }

  ghost predicate Distinct(slots: seq<nat>) {
    forall i, j :: 0 <= i < j < |slots| ==> slots[i] != slots[j]
  }

  /** `level` and the slab's links thread exactly the queue q, all of it at this side and price. */
  ghost predicate QueueLinked(slab: Slab, side: Side, p: Price, q: seq<nat>, level: LevelSlot) {
    && q != []
    && InSlab(slab, q)
    && Distinct(q)
    && level.head == q[0] && level.tail == q[|q| - 1]
    && (forall i :: 0 <= i < |q| ==> StandsAt(slab, side, p, q, i))
  }

  /** The i-th order of queue q is at this side and price, and its links name its neighbours in q. */
  ghost predicate StandsAt(slab: Slab, side: Side, p: Price, q: seq<nat>, i: nat)
    requires i < |q|
  {
    && q[i] < |slab|
    && slab[q[i]].order.side == side && slab[q[i]].order.price == p
    && slab[q[i]].next == (if i + 1 < |q| then q[i + 1] else NIL)
    && slab[q[i]].prev == (if i > 0 then q[i - 1] else NIL)
  }

  ghost predicate FreeLinked(slab: Slab, free: seq<nat>, freeHead: int) {
    && InSlab(slab, free)
    && Distinct(free)
    && freeHead == (if free == [] then NIL else free[0])
    && (forall i {:trigger slab[free[i]]} :: 0 <= i < |free| ==>
          slab[free[i]].next == if i + 1 < |free| then free[i + 1] else NIL)
  }

  /** Every slot is either live or free, and none is both. */
  ghost predicate Partitioned(slab: Slab, live: set<nat>, free: seq<nat>) {
    && (forall s :: s in live ==> s < |slab| && s !in free)
    && (forall s: nat :: s < |slab| ==> s in live || s in free)
  }

  /** The slots at one price, in queue order. */
  ghost function AtPrice(slab: Slab, slots: seq<nat>, p: Price): seq<nat> {
    if slots == [] then []
    else if HasPrice(slab, slots[0], p) then [slots[0]] + AtPrice(slab, slots[1..], p)
    else AtPrice(slab, slots[1..], p)
  }

  ghost predicate HasPrice(slab: Slab, slot: nat, p: Price) {
    slot < |slab| && slab[slot].order.price == p
  }

  ghost predicate PriceOrdered(slab: Slab, side: Side, slots: seq<nat>)
    requires InSlab(slab, slots)
  {
    forall i, j :: 0 <= i < j < |slots| ==> !Better(side, slab[slots[j]].order.price, slab[slots[i]].order.price)
  }

  /** `slots` lists the levels of `queues` best price first, each level in queue order. */
  ghost predicate Flattened(slab: Slab, side: Side, queues: Queues, slots: seq<nat>) {
    && InSlab(slab, slots)
    && PriceOrdered(slab, side, slots)
    && (forall p :: AtPrice(slab, slots, p) == if p in queues then queues[p] else [])
  }

  ghost predicate SideLinked(slab: Slab, live: set<nat>, side: Side, queues: Queues, levels: map<Price, LevelSlot>) {
    && queues.Keys == levels.Keys
    && (forall p :: p in queues ==> QueueLinked(slab, side, p, queues[p], levels[p]))
    && Members(slab, live, side, queues)
  }

  /** The queues of this side hold exactly its live slots, each at its own price. */
  ghost predicate Members(slab: Slab, live: set<nat>, side: Side, queues: Queues) {
    && (forall p, i :: p in queues && 0 <= i < |queues[p]| ==> queues[p][i] in live)
    && (forall s :: s in live && s < |slab| && slab[s].order.side == side ==>
          slab[s].order.price in queues && s in queues[slab[s].order.price])
  }

  // ---------- frames ----------

  lemma QueueFrame(slab: Slab, slab': Slab, side: Side, p: Price, q: seq<nat>, level: LevelSlot)
    requires QueueLinked(slab, side, p, q, level)
    requires |slab| <= |slab'| && forall s :: s in q ==> slab'[s] == slab[s]
    ensures QueueLinked(slab', side, p, q, level)
  {
    forall i | 0 <= i < |q| ensures StandsAt(slab', side, p, q, i) {
      assert StandsAt(slab, side, p, q, i) && q[i] in q;
    }
  }

  /** Neither side notices a change to slots that are not live, as long as no live order is touched. */
  lemma SideFrame(slab: Slab, slab': Slab, live: set<nat>, side: Side, queues: Queues, levels: map<Price, LevelSlot>)
    requires SideLinked(slab, live, side, queues, levels)
    requires forall s :: s in live ==> s < |slab|
    requires |slab| <= |slab'| && forall s :: s in live ==> slab'[s] == slab[s]
    ensures SideLinked(slab', live, side, queues, levels)
  {
    forall p | p in queues ensures QueueLinked(slab', side, p, queues[p], levels[p]) {
      QueueFrame(slab, slab', side, p, queues[p], levels[p]);
    }
  }

  lemma AtPriceFrame(slab: Slab, slab': Slab, slots: seq<nat>, p: Price)
    requires forall s :: s in slots ==> HasPrice(slab', s, p) == HasPrice(slab, s, p)
    ensures AtPrice(slab', slots, p) == AtPrice(slab, slots, p)
  {
    if slots != [] {
      AtPriceFrame(slab, slab', slots[1..], p);
    }
  }

  lemma AtPriceMembers(slab: Slab, slots: seq<nat>, p: Price)
    ensures forall s :: s in AtPrice(slab, slots, p) <==> s in slots && HasPrice(slab, s, p)
    ensures |AtPrice(slab, slots, p)| <= |slots|
  {
    if slots != [] {
      AtPriceMembers(slab, slots[1..], p);
    }
  }

  lemma {:induction false} AtPriceConcat(slab: Slab, a: seq<nat>, b: seq<nat>, p: Price)
    ensures AtPrice(slab, a + b, p) == AtPrice(slab, a, p) + AtPrice(slab, b, p)
  {
    hide HasPrice;
    if a == [] {
      assert a + b == b;
    } else {
      AtPriceConcat(slab, a[1..], b, p);
      assert (a + b)[1..] == a[1..] + b;
    }
  }

  lemma AtPriceNone(slab: Slab, slots: seq<nat>, p: Price)
    requires forall i :: 0 <= i < |slots| ==> !HasPrice(slab, slots[i], p)
    ensures AtPrice(slab, slots, p) == []
  {
    if slots != [] {
      AtPriceNone(slab, slots[1..], p);
    }
  }

  // ---------- orders named by slots ----------

  ghost function Orders(slab: Slab, slots: seq<nat>): (s: seq<BookOrder>)
    requires InSlab(slab, slots)
    ensures |s| == |slots| && forall i :: 0 <= i < |s| ==> s[i] == slab[slots[i]].order
  {
    seq(|slots|, i requires 0 <= i < |slots| => slab[slots[i]].order)
  }

  lemma OrdersRank(slab: Slab, side: Side, slots: seq<nat>, p: Price)
    requires InSlab(slab, slots) && PriceOrdered(slab, side, slots)
    ensures var k := Rank(side, Orders(slab, slots), p);
            && (forall i :: 0 <= i < k ==> !Better(side, p, slab[slots[i]].order.price))
            && (forall i :: k <= i < |slots| ==> Better(side, p, slab[slots[i]].order.price))
  {
    if slots != [] {
      assert Orders(slab, slots)[1..] == Orders(slab, slots[1..]);
      if !Better(side, p, slab[slots[0]].order.price) {
        OrdersRank(slab, side, slots[1..], p);
      }
    }
  }

  // ---------- adding at the back of a level ----------

  lemma AtPriceOne(slab: Slab, slot: nat, p: Price)
    ensures AtPrice(slab, [slot], p) == if HasPrice(slab, slot, p) then [slot] else []
  {
  }

  lemma AtPriceInsert(slab: Slab, side: Side, slots: seq<nat>, slot: nat, k: nat, p: Price)
    requires InSlab(slab, slots) && PriceOrdered(slab, side, slots) && slot < |slab|
    requires k == Rank(side, Orders(slab, slots), slab[slot].order.price)
    ensures AtPrice(slab, slots[..k] + [slot] + slots[k..], p)
              == AtPrice(slab, slots, p) + (if slab[slot].order.price == p then [slot] else [])
  {
    hide AtPrice, Rank, Orders, PriceOrdered;
    AtPriceOne(slab, slot, p);
    assert slots == slots[..k] + slots[k..];
    AtPriceConcat(slab, slots[..k], slots[k..], p);
    AtPriceConcat(slab, slots[..k], [slot], p);
    AtPriceConcat(slab, slots[..k] + [slot], slots[k..], p);
    if slab[slot].order.price == p {
      NoneAtRank(slab, side, slots, k, p);
    }
  }

  /** Past its rank a price does not occur. */
  lemma NoneAtRank(slab: Slab, side: Side, slots: seq<nat>, k: nat, p: Price)
    requires InSlab(slab, slots) && PriceOrdered(slab, side, slots) && k == Rank(side, Orders(slab, slots), p)
    ensures k <= |slots| && AtPrice(slab, slots[k..], p) == []
  {
    hide AtPrice, Rank, PriceOrdered;
    OrdersRank(slab, side, slots, p);
    forall i | 0 <= i < |slots[k..]| ensures !HasPrice(slab, slots[k..][i], p) {
      assert slots[k..][i] == slots[k + i];
    }
    AtPriceNone(slab, slots[k..], p);
  }

  lemma OrderInsert(slab: Slab, side: Side, slots: seq<nat>, slot: nat, k: nat)
    requires InSlab(slab, slots) && PriceOrdered(slab, side, slots) && slot < |slab|
    requires k == Rank(side, Orders(slab, slots), slab[slot].order.price)
    ensures InSlab(slab, slots[..k] + [slot] + slots[k..])
    ensures PriceOrdered(slab, side, slots[..k] + [slot] + slots[k..])
    ensures Orders(slab, slots[..k] + [slot] + slots[k..])
              == Orders(slab, slots)[..k] + [slab[slot].order] + Orders(slab, slots)[k..]
  {
    hide Rank;
    InsertOrdered(slab, side, slots, slot, k);
    var slots' := slots[..k] + [slot] + slots[k..];
    assert forall i :: 0 <= i < |slots'| ==> Orders(slab, slots')[i] == slab[slots'[i]].order;
  }

  /** The slots stay in priority order around the newcomer. */
  lemma InsertOrdered(slab: Slab, side: Side, slots: seq<nat>, slot: nat, k: nat)
    requires InSlab(slab, slots) && PriceOrdered(slab, side, slots) && slot < |slab|
    requires k == Rank(side, Orders(slab, slots), slab[slot].order.price)
    ensures InSlab(slab, slots[..k] + [slot] + slots[k..])
    ensures PriceOrdered(slab, side, slots[..k] + [slot] + slots[k..])
  {
    hide Rank, Orders;
    OrdersRank(slab, side, slots, slab[slot].order.price);
    var slots' := slots[..k] + [slot] + slots[k..];
    forall i, j | 0 <= i < j < |slots'|
      ensures slots'[i] < |slab| && slots'[j] < |slab|
      ensures !Better(side, slab[slots'[j]].order.price, slab[slots'[i]].order.price)
    {
      assert slots'[i] == if i < k then slots[i] else if i == k then slot else slots[i - 1];
      assert slots'[j] == if j < k then slots[j] else if j == k then slot else slots[j - 1];
    }
    assert slots'[k] == slot;
    assert forall i :: 0 <= i < |slots'| ==> slots'[i] < |slab|;
  }

  lemma FlattenInsert(slab: Slab, side: Side, queues: Queues, slots: seq<nat>, slot: nat, k: nat)
    requires Flattened(slab, side, queues, slots) && slot < |slab|
    requires k == Rank(side, Orders(slab, slots), slab[slot].order.price)
    ensures var p := slab[slot].order.price; var q := if p in queues then queues[p] else [];
            Flattened(slab, side, queues[p := q + [slot]], slots[..k] + [slot] + slots[k..])
  {
    var p := slab[slot].order.price;
    var q := if p in queues then queues[p] else [];
    var queues' := queues[p := q + [slot]];
    OrderInsert(slab, side, slots, slot, k);
    forall p'
      ensures AtPrice(slab, slots[..k] + [slot] + slots[k..], p') == if p' in queues' then queues'[p'] else []
    {
      AtPriceInsert(slab, side, slots, slot, k, p');
      assert AtPrice(slab, slots, p') == if p' in queues then queues[p'] else [];
    }
  }

  /** The slab after link_back has put `slot` behind the level's last order. */
  ghost function LinkedBack(slab: Slab, level: LevelSlot, slot: nat): Slab
    requires slot < |slab| && (level.tail == NIL || 0 <= level.tail < |slab|)
  {
    var slab1 := slab[slot := slab[slot].(next := NIL, prev := level.tail)];
    if level.tail == NIL then slab1 else slab1[level.tail := slab1[level.tail].(next := slot)]
  }

  lemma LinkBackQueue(slab: Slab, side: Side, p: Price, q: seq<nat>, level: LevelSlot, slot: nat)
    requires if q == [] then level == EMPTY_LEVEL else QueueLinked(slab, side, p, q, level)
    requires slot < |slab| && slot !in q && slab[slot].order.side == side && slab[slot].order.price == p
    ensures level.tail == NIL || 0 <= level.tail < |slab|
    ensures QueueLinked(LinkedBack(slab, level, slot), side, p, q + [slot],
                        LevelSlot(if level.tail == NIL then slot else level.head, slot))
  {
    if q != [] {
      assert q[|q| - 1] < |slab|;
    }
    var slab' := LinkedBack(slab, level, slot);
    var q' := q + [slot];
    forall i | 0 <= i < |q'|
      ensures StandsAt(slab', side, p, q', i)
    {
      if i < |q| {
        assert StandsAt(slab, side, p, q, i);
        assert q'[i] == q[i] && q[i] != slot;
      }
    }
  }

  ghost predicate SameOrders(slab: Slab, slab': Slab) {
    |slab'| == |slab| && forall s: nat :: s < |slab| ==> slab'[s].order == slab[s].order
  }

  /** Linking a slot behind its level leaves every other queue alone. */
  lemma LinkBackSpares(slab: Slab, level: LevelSlot, slot: nat, side: Side, p: Price, q: seq<nat>, l: LevelSlot)
    requires QueueLinked(slab, side, p, q, l)
    requires slot < |slab| && slot !in q
    requires level.tail == NIL
             || (0 <= level.tail < |slab|
                 && (slab[level.tail].order.side != side || slab[level.tail].order.price != p))
    ensures QueueLinked(LinkedBack(slab, level, slot), side, p, q, l)
  {
    forall s | s in q ensures slab[s].order.side == side && slab[s].order.price == p {
      var i :| 0 <= i < |q| && q[i] == s;
      assert StandsAt(slab, side, p, q, i);
    }
    QueueFrame(slab, LinkedBack(slab, level, slot), side, p, q, l);
  }

  lemma LevelTail(slab: Slab, live: set<nat>, side: Side, queues: Queues, levels: map<Price, LevelSlot>, p: Price)
    requires SideLinked(slab, live, side, queues, levels)
    ensures var level := if p in levels then levels[p] else EMPTY_LEVEL;
            level.tail == NIL || (0 <= level.tail < |slab| && slab[level.tail].order.side == side
                                  && slab[level.tail].order.price == p && level.tail in live)
  {
    if p in levels {
      var q := queues[p];
      assert QueueLinked(slab, side, p, q, levels[p]);
      assert StandsAt(slab, side, p, q, |q| - 1);
    }
  }

  lemma LinkBackThreads(slab: Slab, live: set<nat>, side: Side, queues: Queues, levels: map<Price, LevelSlot>,
                        slot: nat, p: Price, q: seq<nat>, level: LevelSlot, p': Price)
    requires SideLinked(slab, live, side, queues, levels)
    requires slot < |slab| && slot !in live && slab[slot].order.side == side && slab[slot].order.price == p
    requires q == if p in queues then queues[p] else []
    requires level == if p in levels then levels[p] else EMPTY_LEVEL
    requires p' == p || p' in queues
    ensures level.tail == NIL || 0 <= level.tail < |slab|
    ensures p' == p ==> QueueLinked(LinkedBack(slab, level, slot), side, p, q + [slot],
                                    LevelSlot(if level.tail == NIL then slot else level.head, slot))
    ensures p' != p ==> QueueLinked(LinkedBack(slab, level, slot), side, p', queues[p'], levels[p'])
  {
    LevelTail(slab, live, side, queues, levels, p);
    if p' == p {
      assert slot !in q;
      LinkBackQueue(slab, side, p, q, level, slot);
    } else {
      assert slot !in queues[p'];
      LinkBackSpares(slab, level, slot, side, p', queues[p'], levels[p']);
    }
  }

  lemma LinkBackSide(slab: Slab, live: set<nat>, side: Side, queues: Queues, levels: map<Price, LevelSlot>,
                     slot: nat, p: Price, q: seq<nat>, level: LevelSlot, level': LevelSlot)
    requires SideLinked(slab, live, side, queues, levels) && (forall s :: s in live ==> s < |slab|)
    requires slot < |slab| && slot !in live && slab[slot].order.side == side && slab[slot].order.price == p
    requires q == if p in queues then queues[p] else []
    requires level == if p in levels then levels[p] else EMPTY_LEVEL
    requires level' == LevelSlot(if level.tail == NIL then slot else level.head, slot)
    ensures level.tail == NIL || 0 <= level.tail < |slab|
    ensures SideLinked(LinkedBack(slab, level, slot), live + {slot}, side, queues[p := q + [slot]], levels[p := level'])
  {
    hide QueueLinked, LinkedBack, Members, SameOrders;
    LinkBackThreads(slab, live, side, queues, levels, slot, p, q, level, p);
    var slab' := LinkedBack(slab, level, slot);
    var queues', levels' := queues[p := q + [slot]], levels[p := level'];
    assert Members(slab', live + {slot}, side, queues') by {
      LinkedBackOrders(slab, level, slot);
      LinkBackMembers(slab, slab', live, side, queues, slot, p, q);
    }
    assert forall p' :: p' in queues' ==> QueueLinked(slab', side, p', queues'[p'], levels'[p']) by {
      forall p' | p' in queues' ensures QueueLinked(slab', side, p', queues'[p'], levels'[p']) {
        LinkBackThreads(slab, live, side, queues, levels, slot, p, q, level, p');
      }
    }
  }

  lemma LinkedBackOrders(slab: Slab, level: LevelSlot, slot: nat)
    requires slot < |slab| && (level.tail == NIL || 0 <= level.tail < |slab|)
    ensures SameOrders(slab, LinkedBack(slab, level, slot))
  {
  }

  lemma LinkBackMembers(slab: Slab, slab': Slab, live: set<nat>, side: Side, queues: Queues, slot: nat, p: Price,
                        q: seq<nat>)
    requires SameOrders(slab, slab')
    requires forall s :: s in live ==> s < |slab|
    requires Members(slab, live, side, queues)
    requires slot < |slab| && slab[slot].order.price == p
    requires q == if p in queues then queues[p] else []
    ensures Members(slab', live + {slot}, side, queues[p := q + [slot]])
  {
    assert (q + [slot])[|q|] == slot;
    assert forall s :: s in q ==> s in q + [slot];
  }

  lemma LinkBackOtherSide(slab: Slab, live: set<nat>, side: Side, queues: Queues, levels: map<Price, LevelSlot>,
                          slot: nat, level: LevelSlot)
    requires SideLinked(slab, live, side, queues, levels) && (forall s :: s in live ==> s < |slab|)
    requires slot < |slab| && slot !in live && slab[slot].order.side != side
    requires level.tail == NIL || (0 <= level.tail < |slab| && slab[level.tail].order.side != side)
    ensures SideLinked(LinkedBack(slab, level, slot), live + {slot}, side, queues, levels)
  {
    var slab' := LinkedBack(slab, level, slot);
    forall p' | p' in queues ensures QueueLinked(slab', side, p', queues[p'], levels[p']) {
      LinkBackSpares(slab, level, slot, side, p', queues[p'], levels[p']);
    }
    assert forall s: nat :: s < |slab| ==> slab'[s].order == slab[s].order;
  }

  // ---------- taking an order out of its level ----------

  /** The slab after unlink has joined the neighbours of `slot`. */
  ghost function Unlinked(slab: Slab, slot: nat): Slab
    requires slot < |slab|
    requires slab[slot].next == NIL || 0 <= slab[slot].next < |slab|
    requires slab[slot].prev == NIL || 0 <= slab[slot].prev < |slab|
  {
    var next, prev := slab[slot].next, slab[slot].prev;
    var slab1 := if prev == NIL then slab else slab[prev := slab[prev].(next := next)];
    if next == NIL then slab1 else slab1[next := slab1[next].(prev := prev)]
  }

  /** The level after unlink: its ends move only if `slot` was one of them. */
  function UnlinkedLevel(level: LevelSlot, next: int, prev: int): LevelSlot {
    LevelSlot(if prev == NIL then next else level.head, if next == NIL then prev else level.tail)
  }

  lemma Neighbours(slab: Slab, side: Side, p: Price, q: seq<nat>, level: LevelSlot, i: nat)
    requires QueueLinked(slab, side, p, q, level) && i < |q|
    ensures slab[q[i]].next == (if i + 1 < |q| then q[i + 1] else NIL)
    ensures slab[q[i]].prev == (if i > 0 then q[i - 1] else NIL)
    ensures slab[q[i]].order.side == side && slab[q[i]].order.price == p
  {
    assert StandsAt(slab, side, p, q, i);
  }

  lemma UnlinkLinks(slab: Slab, side: Side, p: Price, q: seq<nat>, level: LevelSlot, i: nat, k: nat)
    requires QueueLinked(slab, side, p, q, level) && i < |q| && k < |q| && k != i
    ensures slab[q[i]].next == NIL || 0 <= slab[q[i]].next < |slab|
    ensures slab[q[i]].prev == NIL || 0 <= slab[q[i]].prev < |slab|
    ensures var slab' := Unlinked(slab, q[i]);
            && slab'[q[k]].order == slab[q[k]].order
            && slab'[q[k]].next == (if k + 1 == i then slab[q[i]].next else slab[q[k]].next)
            && slab'[q[k]].prev == (if k == i + 1 then slab[q[i]].prev else slab[q[k]].prev)
  {
    Neighbours(slab, side, p, q, level, i);
  }

  lemma RemovedSlots(slab: Slab, q: seq<nat>, i: nat)
    requires InSlab(slab, q) && Distinct(q) && i < |q|
    ensures InSlab(slab, q[..i] + q[i + 1..]) && Distinct(q[..i] + q[i + 1..])
    ensures forall s :: s in q[..i] + q[i + 1..] <==> s in q && s != q[i]
  {
    var q' := q[..i] + q[i + 1..];
    forall s | s in q && s != q[i] ensures s in q' {
      var j :| 0 <= j < |q| && q[j] == s;
      assert q'[if j < i then j else j - 1] == s;
    }
  }

  lemma Removed(q: seq<nat>, i: nat, j: nat)
    requires i < |q| && j < |q| - 1
    ensures (q[..i] + q[i + 1..])[j] == q[if j < i then j else j + 1]
  {
  }

  lemma UnlinkQueue(slab: Slab, side: Side, p: Price, q: seq<nat>, level: LevelSlot, i: nat)
    requires QueueLinked(slab, side, p, q, level) && i < |q| && |q| > 1
    ensures slab[q[i]].next == NIL || 0 <= slab[q[i]].next < |slab|
    ensures slab[q[i]].prev == NIL || 0 <= slab[q[i]].prev < |slab|
    ensures UnlinkedLevel(level, slab[q[i]].next, slab[q[i]].prev).head != NIL
    ensures QueueLinked(Unlinked(slab, q[i]), side, p, q[..i] + q[i + 1..],
                        UnlinkedLevel(level, slab[q[i]].next, slab[q[i]].prev))
  {
    hide Unlinked;
    Neighbours(slab, side, p, q, level, i);
    UnlinkedOrders(slab, q[i]);
    RemovedSlots(slab, q, i);
    var q' := q[..i] + q[i + 1..];
    forall j | 0 <= j < |q'|
      ensures StandsAt(Unlinked(slab, q[i]), side, p, q', j)
    {
      UnlinkedAt(slab, side, p, q, level, i, j);
    }
  }

  lemma UnlinkedAt(slab: Slab, side: Side, p: Price, q: seq<nat>, level: LevelSlot, i: nat, j: nat)
    requires QueueLinked(slab, side, p, q, level) && i < |q| && j < |q| - 1
    ensures slab[q[i]].next == NIL || 0 <= slab[q[i]].next < |slab|
    ensures slab[q[i]].prev == NIL || 0 <= slab[q[i]].prev < |slab|
    ensures StandsAt(Unlinked(slab, q[i]), side, p, q[..i] + q[i + 1..], j)
  {
    var k := if j < i then j else j + 1;
    Removed(q, i, j);
    Neighbours(slab, side, p, q, level, i);
    Neighbours(slab, side, p, q, level, k);
    UnlinkLinks(slab, side, p, q, level, i, k);
  }

  lemma UnlinkLast(slab: Slab, side: Side, p: Price, q: seq<nat>, level: LevelSlot)
    requires QueueLinked(slab, side, p, q, level) && |q| == 1
    ensures slab[q[0]].next == NIL && slab[q[0]].prev == NIL
    ensures UnlinkedLevel(level, slab[q[0]].next, slab[q[0]].prev).head == NIL
  {
    Neighbours(slab, side, p, q, level, 0);
  }

  /** Unlinking a slot leaves every other queue alone. */
  lemma UnlinkSpares(slab: Slab, slot: nat, side: Side, p: Price, q: seq<nat>, level: LevelSlot)
    requires QueueLinked(slab, side, p, q, level)
    requires slot < |slab|
    requires slab[slot].next == NIL || (0 <= slab[slot].next < |slab| && slab[slot].next !in q)
    requires slab[slot].prev == NIL || (0 <= slab[slot].prev < |slab| && slab[slot].prev !in q)
    ensures QueueLinked(Unlinked(slab, slot), side, p, q, level)
  {
    QueueFrame(slab, Unlinked(slab, slot), side, p, q, level);
  }

  lemma QueuesDisjoint(slab: Slab, side: Side, p: Price, q: seq<nat>, level: LevelSlot,
                       side': Side, p': Price, q': seq<nat>, level': LevelSlot, s: nat)
    requires QueueLinked(slab, side, p, q, level) && QueueLinked(slab, side', p', q', level')
    requires side != side' || p != p'
    requires s in q
    ensures s !in q'
  {
    var i :| 0 <= i < |q| && q[i] == s;
    Neighbours(slab, side, p, q, level, i);
    forall j | 0 <= j < |q'| ensures q'[j] != s {
      Neighbours(slab, side', p', q', level', j);
    }
  }

  /** The neighbours of a queued slot belong to its own queue, so unlinking it spares any other queue. */
  lemma UnlinkSparesOthers(slab: Slab, side: Side, p: Price, q: seq<nat>, level: LevelSlot, i: nat,
                           side': Side, p': Price, q': seq<nat>, level': LevelSlot)
    requires QueueLinked(slab, side, p, q, level) && i < |q|
    requires QueueLinked(slab, side', p', q', level') && (side != side' || p != p')
    ensures slab[q[i]].next == NIL || 0 <= slab[q[i]].next < |slab|
    ensures slab[q[i]].prev == NIL || 0 <= slab[q[i]].prev < |slab|
    ensures QueueLinked(Unlinked(slab, q[i]), side', p', q', level')
    ensures q[i] !in q'
  {
    Neighbours(slab, side, p, q, level, i);
    QueuesDisjoint(slab, side, p, q, level, side', p', q', level', q[i]);
    if i + 1 < |q| {
      QueuesDisjoint(slab, side, p, q, level, side', p', q', level', q[i + 1]);
    }
    if i > 0 {
      QueuesDisjoint(slab, side, p, q, level, side', p', q', level', q[i - 1]);
    }
    UnlinkSpares(slab, q[i], side', p', q', level');
  }

  ghost function Dequeued(queues: Queues, p: Price, i: nat): Queues
    requires p in queues && i < |queues[p]|
  {
    var q := queues[p][..i] + queues[p][i + 1..];
    if q == [] then queues - {p} else queues[p := q]
  }

  /** The levels after unlink, and erase_level if that emptied the level. */
  ghost function Delisted(levels: map<Price, LevelSlot>, p: Price, level': LevelSlot): map<Price, LevelSlot> {
    if level'.head == NIL then levels - {p} else levels[p := level']
  }

  lemma UnlinkMembers(slab: Slab, slab': Slab, live: set<nat>, side: Side, queues: Queues, p: Price, i: nat)
    requires SameOrders(slab, slab') && Members(slab, live, side, queues)
    requires p in queues && i < |queues[p]| && InSlab(slab, queues[p]) && Distinct(queues[p])
    requires forall p' :: p' in queues && p' != p ==> queues[p][i] !in queues[p']
    ensures Members(slab', live - {queues[p][i]}, side, Dequeued(queues, p, i))
  {
    RemovedSlots(slab, queues[p], i);
    var q' := queues[p][..i] + queues[p][i + 1..];
    assert forall j :: 0 <= j < |q'| ==> q'[j] in q';
  }

  lemma UnlinkSide(slab: Slab, live: set<nat>, side: Side, queues: Queues, levels: map<Price, LevelSlot>,
                   p: Price, i: nat, slot: nat, level': LevelSlot)
    requires SideLinked(slab, live, side, queues, levels)
    requires p in queues && i < |queues[p]| && queues[p][i] == slot && slot < |slab|
    requires level' == UnlinkedLevel(levels[p], slab[slot].next, slab[slot].prev)
    ensures slab[slot].next == NIL || 0 <= slab[slot].next < |slab|
    ensures slab[slot].prev == NIL || 0 <= slab[slot].prev < |slab|
    ensures SideLinked(Unlinked(slab, slot), live - {slot}, side, Dequeued(queues, p, i), Delisted(levels, p, level'))
    ensures level'.head == NIL <==> |queues[p]| == 1
  {
    hide Unlinked, UnlinkedLevel, Dequeued, Delisted, Members;
    var q := queues[p];
    Neighbours(slab, side, p, q, levels[p], i);
    var slab' := Unlinked(slab, slot);
    var queues', levels' := Dequeued(queues, p, i), Delisted(levels, p, level');
    assert OthersSpared(slab', side, queues, levels, p, slot) by {
      forall p' | p' in queues && p' != p
        ensures QueueLinked(slab', side, p', queues[p'], levels[p']) && slot !in queues[p']
      {
        UnlinkSparesOthers(slab, side, p, q, levels[p], i, side, p', queues[p'], levels[p']);
      }
    }
    assert Members(slab', live - {slot}, side, queues') by {
      UnlinkedOrders(slab, slot);
      UnlinkMembers(slab, slab', live, side, queues, p, i);
    }
    if |q| == 1 {
      UnlinkLast(slab, side, p, q, levels[p]);
    } else {
      UnlinkQueue(slab, side, p, q, levels[p], i);
    }
    ThreadsAfter(slab', side, queues, levels, p, i, slot, level');
  }

  /** Every queue left is threaded: the others as they were, the shortened one if anything is left of it. */
  lemma ThreadsAfter(slab: Slab, side: Side, queues: Queues, levels: map<Price, LevelSlot>, p: Price, i: nat, slot: nat,
                     level': LevelSlot)
    requires queues.Keys == levels.Keys && p in queues && i < |queues[p]|
    requires OthersSpared(slab, side, queues, levels, p, slot)
    requires level'.head == NIL <==> |queues[p]| == 1
    requires |queues[p]| > 1 ==> QueueLinked(slab, side, p, queues[p][..i] + queues[p][i + 1..], level')
    ensures var queues', levels' := Dequeued(queues, p, i), Delisted(levels, p, level');
            && queues'.Keys == levels'.Keys
            && forall p' :: p' in queues' ==> QueueLinked(slab, side, p', queues'[p'], levels'[p'])
  {
    hide QueueLinked;
    var q := queues[p][..i] + queues[p][i + 1..];
    assert |q| == |queues[p]| - 1;
  }

  ghost predicate OthersSpared(slab: Slab, side: Side, queues: Queues, levels: map<Price, LevelSlot>, p: Price,
                               slot: nat)
    requires queues.Keys == levels.Keys
  {
    forall p' :: p' in queues && p' != p ==>
      QueueLinked(slab, side, p', queues[p'], levels[p']) && slot !in queues[p']
  }

  lemma UnlinkedOrders(slab: Slab, slot: nat)
    requires slot < |slab|
    requires slab[slot].next == NIL || 0 <= slab[slot].next < |slab|
    requires slab[slot].prev == NIL || 0 <= slab[slot].prev < |slab|
    ensures SameOrders(slab, Unlinked(slab, slot))
  {
  }

  lemma UnlinkOtherSide(slab: Slab, live: set<nat>, side: Side, queues: Queues, levels: map<Price, LevelSlot>,
                        p: Price, q: seq<nat>, level: LevelSlot, i: nat)
    requires SideLinked(slab, live, side, queues, levels)
    requires QueueLinked(slab, side.Opposite(), p, q, level) && i < |q|
    ensures slab[q[i]].next == NIL || 0 <= slab[q[i]].next < |slab|
    ensures slab[q[i]].prev == NIL || 0 <= slab[q[i]].prev < |slab|
    ensures SideLinked(Unlinked(slab, q[i]), live - {q[i]}, side, queues, levels)
  {
    Neighbours(slab, side.Opposite(), p, q, level, i);
    forall p' | p' in queues
      ensures QueueLinked(Unlinked(slab, q[i]), side, p', queues[p'], levels[p']) && q[i] !in queues[p']
    {
      UnlinkSparesOthers(slab, side.Opposite(), p, q, level, i, side, p', queues[p'], levels[p']);
    }
    UnlinkedOrders(slab, q[i]);
  }

  // ---------- flattening after a removal, and frames ----------

  lemma FlattenFrame(slab: Slab, slab': Slab, side: Side, queues: Queues, slots: seq<nat>)
    requires Flattened(slab, side, queues, slots) && InSlab(slab', slots)
    requires forall s :: s in slots ==> slab'[s].order.price == slab[s].order.price
    ensures Flattened(slab', side, queues, slots)
  {
    assert forall i :: 0 <= i < |slots| ==> slots[i] in slots;
    forall p ensures AtPrice(slab', slots, p) == AtPrice(slab, slots, p) {
      AtPriceFrame(slab, slab', slots, p);
    }
  }

  lemma AtPriceRemove(slab: Slab, slots: seq<nat>, j: nat, p: Price)
    requires InSlab(slab, slots) && j < |slots|
    ensures var s := slots[j]; var i := |AtPrice(slab, slots[..j], p)|; var q := AtPrice(slab, slots, p);
            if HasPrice(slab, s, p)
            then i < |q| && q[i] == s && AtPrice(slab, slots[..j] + slots[j + 1..], p) == q[..i] + q[i + 1..]
            else AtPrice(slab, slots[..j] + slots[j + 1..], p) == q
  {
    var a, c := slots[..j], slots[j + 1..];
    assert slots == a + ([slots[j]] + c);
    AtPriceConcat(slab, a, [slots[j]] + c, p);
    AtPriceConcat(slab, [slots[j]], c, p);
    AtPriceConcat(slab, a, c, p);
    assert AtPrice(slab, [slots[j]], p) == if HasPrice(slab, slots[j], p) then [slots[j]] else [];
  }

  lemma FlattenRemove(slab: Slab, side: Side, queues: Queues, slots: seq<nat>, j: nat, p: Price, i: nat)
    requires Flattened(slab, side, queues, slots) && j < |slots| && HasPrice(slab, slots[j], p)
    requires p in queues && i < |queues[p]| && queues[p][i] == slots[j] && Distinct(queues[p])
    requires forall p' :: p' in queues ==> queues[p'] != []
    ensures Flattened(slab, side, Dequeued(queues, p, i), slots[..j] + slots[j + 1..])
  {
    var slots' := slots[..j] + slots[j + 1..];
    assert PriceOrdered(slab, side, slots');
    var queues' := Dequeued(queues, p, i);
    forall p' ensures AtPrice(slab, slots', p') == if p' in queues' then queues'[p'] else [] {
      AtPriceRemove(slab, slots, j, p');
      assert AtPrice(slab, slots, p') == if p' in queues then queues[p'] else [];
    }
  }

  /** A side's slots start with the whole queue of its best level. */
  lemma {:induction false} FlattenHead(slab: Slab, side: Side, slots: seq<nat>, p: Price)
    requires InSlab(slab, slots) && PriceOrdered(slab, side, slots)
    requires forall i :: 0 <= i < |slots| ==> !Better(side, slab[slots[i]].order.price, p)
    ensures var q := AtPrice(slab, slots, p);
            && |q| <= |slots| && q == slots[..|q|]
            && (forall i :: |q| <= i < |slots| ==> Better(side, p, slab[slots[i]].order.price))
  {
    if slots != [] {
      if slab[slots[0]].order.price == p {
        FlattenHead(slab, side, slots[1..], p);
        var q := AtPrice(slab, slots[1..], p);
        assert slots[..1 + |q|] == [slots[0]] + slots[1..][..|q|];
      } else {
        AtPriceNone(slab, slots, p);
      }
    }
  }
}
