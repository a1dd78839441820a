/** How one side finds its levels: an array over a window of ticks, three tiers of bits above it, and a map for the
    rest. Proved to be a plain map from price to level. */
module SideIndexes {
  import opened ExchangeTypes
  import opened MatchingModel

  /** No slot. */
  const NIL: int := -1

  /** The first and the last slot queued at a price. */
  datatype LevelSlot = LevelSlot(head: int, tail: int)

  const EMPTY_LEVEL := LevelSlot(NIL, NIL)

  // ---------- words ----------

  /** A 64-bit word, as the set of its one-bits. */
  type Word = set<nat>

  function WordsFor(n: nat): nat {
    (n + 63) / 64
  }

  function HighestBit(w: Word): (b: nat)
    requires w != {}
    ensures b in w && forall x :: x in w ==> x <= b
  {
    Extreme(Buy, w)
  }

  function LowestBit(w: Word): (b: nat)
    requires w != {}
    ensures b in w && forall x :: x in w ==> b <= x
  {
    Extreme(Sell, w)
  }

  function BitsBelow(w: Word, bit: nat): Word {
    set x | x in w && x < bit
  }

  function BitsAbove(w: Word, bit: nat): Word {
    set x | x in w && bit < x
  }

  // ---------- ordered sets of prices ----------

  /** p is in the set and has priority over everything else in it. */
  ghost predicate IsBest(side: Side, p: Price, prices: set<Price>) {
    p in prices && forall q :: q in prices ==> q == p || Better(side, p, q)
  }

  /** The prices of the set that have lower priority than p. */
  function WorseThan(side: Side, prices: set<Price>, p: Price): set<Price> {
    set q | q in prices && Better(side, p, q)
  }

  lemma Member(prices: set<Price>) returns (p: Price)
    requires prices != {}
    ensures p in prices
  {
    assert (forall x :: x !in prices) ==> prices == {};
    p :| p in prices;
  }

  lemma {:induction false} HasExtreme(side: Side, prices: set<Price>)
    requires prices != {}
    ensures exists p :: p in prices && forall q :: q in prices ==> q == p || Better(side, p, q)
  {
    var x := Member(prices);
    var rest := prices - {x};
    if rest == {} {
      assert prices == {x};
    } else {
      HasExtreme(side, rest);
      var p :| p in rest && forall q :: q in rest ==> q == p || Better(side, p, q);
      var best := if Better(side, x, p) then x else p;
      forall q | q in prices ensures q == best || Better(side, best, q) {
        assert q == x || q in rest;
      }
    }
  }

  /** The end of an ordered map that has priority on this side: its last key for bids, its first for asks. */
  function Extreme(side: Side, prices: set<Price>): (p: Price)
    requires prices != {}
    ensures IsBest(side, p, prices)
  {
    HasExtreme(side, prices);
    var p :| p in prices && forall q :: q in prices ==> q == p || Better(side, p, q);
    p
  }

  /** best_price and then next_price until there is none: each price, and then the best of those worse than it. */
  function PriceWalk(side: Side, prices: set<Price>): seq<Price>
    decreases |prices|
  {
    if prices == {} then []
    else
      var p := Extreme(side, prices);
      FewerWorse(side, prices, p);
      [p] + PriceWalk(side, WorseThan(side, prices, p))
  }

  lemma FewerWorse(side: Side, prices: set<Price>, p: Price)
    requires p in prices
    ensures |WorseThan(side, prices, p)| < |prices|
  {
    assert WorseThan(side, prices, p) <= prices - {p};
    SubsetSize(WorseThan(side, prices, p), prices - {p});
  }

  lemma {:induction false} SubsetSize(a: set<Price>, b: set<Price>)
    requires a <= b
    ensures |a| <= |b|
  {
    if a != {} {
      var x := Member(a);
      SubsetSize(a - {x}, b - {x});
    }
  }

  /** The walk visits every occupied price exactly once, in strict priority order, and stops. */
  lemma {:induction false} PriceWalkVisitsAll(side: Side, prices: set<Price>)
    ensures forall p :: p in PriceWalk(side, prices) <==> p in prices
    ensures forall i, j :: 0 <= i < j < |PriceWalk(side, prices)| ==>
              Better(side, PriceWalk(side, prices)[i], PriceWalk(side, prices)[j])
    decreases |prices|
  {
    hide Extreme;
    if prices != {} {
      var p := Extreme(side, prices);
      var worse := WorseThan(side, prices, p);
      FewerWorse(side, prices, p);
      PriceWalkVisitsAll(side, worse);
      BestLeavesWorse(side, prices, p);
      var walk, rest := PriceWalk(side, prices), PriceWalk(side, worse);
      assert walk == [p] + rest;
      forall j | 1 <= j < |walk| ensures Better(side, p, walk[j]) {
        assert walk[j] in rest;
      }
      assert forall i :: 1 <= i < |walk| ==> walk[i] == rest[i - 1];
    }
  }

  lemma BestLeavesWorse(side: Side, prices: set<Price>, p: Price)
    requires IsBest(side, p, prices)
    ensures prices == {p} + WorseThan(side, prices, p)
  {
  }

  /** What is still to come when the walk stands at `price`. */
  ghost function RestOfWalk(side: Side, prices: set<Price>, price: Option<Price>): seq<Price> {
    if price.None? then [] else [price.value] + PriceWalk(side, WorseThan(side, prices, price.value))
  }

  lemma RestSplits(side: Side, prices: set<Price>, price: Price)
    ensures RestOfWalk(side, prices, Some(price)) == [price] + PriceWalk(side, WorseThan(side, prices, price))
  {
  }

  lemma WalkOfNothing(side: Side, prices: set<Price>)
    ensures prices == {} ==> PriceWalk(side, prices) == []
    ensures RestOfWalk(side, prices, None) == []
  {
  }

  lemma EmptyMeansNothing(levels: map<Price, LevelSlot>)
    ensures levels.Keys == {} <==> levels == map[]
  {
    if levels.Keys == {} {
      assert forall p :: p !in levels;
    }
  }

  /** There is one best price only. */
  lemma WalkFrom(side: Side, prices: set<Price>, best: Price)
    requires IsBest(side, best, prices)
    ensures best in prices && PriceWalk(side, prices) == RestOfWalk(side, prices, Some(best))
  {
    hide Extreme;
    assert Extreme(side, prices) == best;
  }

  /** The next price is where the walk over the worse prices starts; with none next, there are none worse. */
  lemma WalkGoesOn(side: Side, prices: set<Price>, price: Price, next: Option<Price>)
    requires next.None? ==> forall q :: q in prices ==> !Better(side, price, q)
    requires next.Some? ==> IsBest(side, next.value, WorseThan(side, prices, price))
    ensures PriceWalk(side, WorseThan(side, prices, price)) == RestOfWalk(side, prices, next)
    ensures next.Some? ==> next.value in prices
    ensures next.Some? ==> |WorseThan(side, prices, next.value)| < |WorseThan(side, prices, price)|
  {
    hide Extreme;
    var worse := WorseThan(side, prices, price);
    if next.None? {
      assert worse == {};
    } else {
      var n := next.value;
      assert WorseThan(side, worse, n) == WorseThan(side, prices, n);
      WalkFrom(side, worse, n);
      FewerWorse(side, worse, n);
    }
  }

  // ---------- bitmap coherence ----------

  predicate Occupied(occupancy: seq<Word>, tick: nat) {
    tick / 64 < |occupancy| && tick % 64 in occupancy[tick / 64]
  }

  /** Every level of the bitmap says exactly which words of the level below it are non-empty. */
  ghost predicate Coherent(bandTicks: nat, occupancy: seq<Word>, midSummary: seq<Word>, summary: Word) {
    && |occupancy| == WordsFor(bandTicks)
    && |midSummary| == WordsFor(|occupancy|)
    && (forall w, b :: 0 <= w < |occupancy| && b in occupancy[w] ==> b < 64 && 64 * w + b < bandTicks)
    && (forall m, b :: 0 <= m < |midSummary| && b in midSummary[m] ==> b < 64 && 64 * m + b < |occupancy|)
    && (forall m :: m in summary ==> m < |midSummary|)
    && (forall w :: 0 <= w < |occupancy| ==> (occupancy[w] != {} <==> w % 64 in midSummary[w / 64]))
    && (forall m :: 0 <= m < |midSummary| ==> (midSummary[m] != {} <==> m in summary))
  }

  lemma OccupiedClimbs(bandTicks: nat, occupancy: seq<Word>, midSummary: seq<Word>, summary: Word, tick: nat)
    requires Coherent(bandTicks, occupancy, midSummary, summary) && Occupied(occupancy, tick)
    ensures tick < bandTicks
    ensures tick / 64 % 64 in midSummary[tick / 64 / 64] && tick / 64 / 64 in summary
  {
  }

  /** Where an occupied tick below another shows up when climbing from the other's word to the summary. */
  lemma ClimbBelow(bandTicks: nat, occupancy: seq<Word>, midSummary: seq<Word>, summary: Word, tick: nat, u: nat)
    requires Coherent(bandTicks, occupancy, midSummary, summary) && tick < bandTicks
    requires Occupied(occupancy, u) && u < tick
    ensures || (u / 64 == tick / 64 && u % 64 in BitsBelow(occupancy[tick / 64], tick % 64))
            || (u / 64 < tick / 64 && u / 64 / 64 == tick / 64 / 64
                && u / 64 % 64 in BitsBelow(midSummary[tick / 64 / 64], tick / 64 % 64))
            || (u / 64 / 64 < tick / 64 / 64 && u / 64 / 64 in BitsBelow(summary, tick / 64 / 64))
  {
    OccupiedClimbs(bandTicks, occupancy, midSummary, summary, u);
  }

  lemma ClimbAbove(bandTicks: nat, occupancy: seq<Word>, midSummary: seq<Word>, summary: Word, tick: nat, u: nat)
    requires Coherent(bandTicks, occupancy, midSummary, summary) && tick < bandTicks
    requires Occupied(occupancy, u) && tick < u
    ensures || (u / 64 == tick / 64 && u % 64 in BitsAbove(occupancy[tick / 64], tick % 64))
            || (tick / 64 < u / 64 && u / 64 / 64 == tick / 64 / 64
                && u / 64 % 64 in BitsAbove(midSummary[tick / 64 / 64], tick / 64 % 64))
            || (tick / 64 / 64 < u / 64 / 64 && u / 64 / 64 in BitsAbove(summary, tick / 64 / 64))
  {
    OccupiedClimbs(bandTicks, occupancy, midSummary, summary, u);
  }

  class SideIndex {
    const side: Side
    const bandTicks: nat
    var base: Price
    var anchored: bool
    var ladder: array?<LevelSlot>
    var occupancy: seq<Word>
    var midSummary: seq<Word>
    var summary: Word
    var overflow: map<Price, LevelSlot>

    /** What this index means: the level at each price that has one. */
    ghost var Levels: map<Price, LevelSlot>
    ghost var Repr: set<object>

    predicate InBand(price: Price)
      reads this
    {
      anchored && 0 <= price - base < bandTicks
    }

    ghost predicate Valid()
      reads this, Repr
      ensures Valid() ==> this in Repr
    {
      && this in Repr
      && (ladder != null ==> ladder in Repr)
      && bandTicks <= 64 * 64 * 64
      && (anchored ==> bandTicks > 0 && ladder != null && ladder.Length == bandTicks
                       && Coherent(bandTicks, occupancy, midSummary, summary))
      && (!anchored ==> ladder == null && occupancy == [] && midSummary == [] && summary == {})
      && (!anchored && bandTicks != 0 ==> overflow == map[])
      && (forall p :: p in overflow ==> !InBand(p))
      && (forall p :: p in Levels <==> if InBand(p) then Occupied(occupancy, p - base) else p in overflow)
      && (forall p :: p in Levels ==> Levels[p] == if InBand(p) then ladder[p - base] else overflow[p])
    }

    constructor (side: Side, bandTicks: nat)
      requires bandTicks <= 64 * 64 * 64
      ensures Valid() && fresh(Repr)
      ensures this.side == side && Levels == map[]
    {
      this.side := side;
      this.bandTicks := bandTicks;
      base, anchored, ladder := 0, false, null;
      occupancy, midSummary, summary := [], [], {};
      overflow, Levels := map[], map[];
      Repr := {this};
    }

    lemma EmptyMeansNoLevels()
      requires Valid()
      ensures summary == {} && overflow == map[] <==> Levels == map[]
    {
      if Levels == map[] {
        assert overflow.Keys == {} by {
          assert forall p :: p in overflow ==> p in Levels;
        }
        assert summary != {} ==> base + HighestOccupied() in Levels;
      } else {
        var p := Member(Levels.Keys);
        if InBand(p) {
          OccupiedClimbs(bandTicks, occupancy, midSummary, summary, p - base);
        }
      }
    }

    predicate Empty()
      requires Valid()
      reads this, Repr
      ensures Empty() <==> Levels == map[]
    {
      EmptyMeansNoLevels();
      summary == {} && overflow == map[]
    }

    // ---------- the occupancy bitmap ----------

    method SetOccupied(tick: nat)
      requires Coherent(bandTicks, occupancy, midSummary, summary) && tick < bandTicks
      modifies this`occupancy, this`midSummary, this`summary
      ensures Coherent(bandTicks, occupancy, midSummary, summary)
      ensures forall t: nat :: Occupied(occupancy, t) <==> old(Occupied(occupancy, t)) || t == tick
    {
      var word := tick / 64;
      occupancy := occupancy[word := occupancy[word] + {tick % 64}];
      midSummary := midSummary[word / 64 := midSummary[word / 64] + {word % 64}];
      summary := summary + {word / 64};
    }

    method ClearOccupied(tick: nat)
      requires Coherent(bandTicks, occupancy, midSummary, summary) && tick < bandTicks
      modifies this`occupancy, this`midSummary, this`summary
      ensures Coherent(bandTicks, occupancy, midSummary, summary)
      ensures forall t: nat :: Occupied(occupancy, t) <==> old(Occupied(occupancy, t)) && t != tick
    {
      var word := tick / 64;
      occupancy := occupancy[word := occupancy[word] - {tick % 64}];
      if occupancy[word] != {} {
        return;
      }
      var mid := word / 64;
      midSummary := midSummary[mid := midSummary[mid] - {word % 64}];
      if midSummary[mid] == {} {
        summary := summary - {mid};
      }
    }

    /** The highest and lowest occupied tick of a non-empty word, and of a non-empty group of 64 words. */
    function TopOfWord(word: nat): (t: nat)
      requires Coherent(bandTicks, occupancy, midSummary, summary)
      requires word < |occupancy| && occupancy[word] != {}
      reads this
      ensures t / 64 == word && t < bandTicks && Occupied(occupancy, t)
      ensures forall u: nat :: Occupied(occupancy, u) && u / 64 == word ==> u <= t
    {
      64 * word + HighestBit(occupancy[word])
    }

    function BottomOfWord(word: nat): (t: nat)
      requires Coherent(bandTicks, occupancy, midSummary, summary)
      requires word < |occupancy| && occupancy[word] != {}
      reads this
      ensures t / 64 == word && t < bandTicks && Occupied(occupancy, t)
      ensures forall u: nat :: Occupied(occupancy, u) && u / 64 == word ==> t <= u
    {
      64 * word + LowestBit(occupancy[word])
    }

    function TopOfMid(mid: nat): (t: nat)
      requires Coherent(bandTicks, occupancy, midSummary, summary) && mid in summary
      reads this
      ensures t / 64 / 64 == mid && t < bandTicks && Occupied(occupancy, t)
      ensures forall u: nat :: Occupied(occupancy, u) && u / 64 / 64 == mid ==> u <= t
    {
      var word := 64 * mid + HighestBit(midSummary[mid]);
      assert forall u: nat :: Occupied(occupancy, u) && u / 64 / 64 == mid ==> u / 64 % 64 in midSummary[mid];
      TopOfWord(word)
    }

    function BottomOfMid(mid: nat): (t: nat)
      requires Coherent(bandTicks, occupancy, midSummary, summary) && mid in summary
      reads this
      ensures t / 64 / 64 == mid && t < bandTicks && Occupied(occupancy, t)
      ensures forall u: nat :: Occupied(occupancy, u) && u / 64 / 64 == mid ==> t <= u
    {
      var word := 64 * mid + LowestBit(midSummary[mid]);
      assert forall u: nat :: Occupied(occupancy, u) && u / 64 / 64 == mid ==> u / 64 % 64 in midSummary[mid];
      BottomOfWord(word)
    }

    /** bandTicks when no tick is occupied. */
    function HighestOccupied(): (t: nat)
      requires Coherent(bandTicks, occupancy, midSummary, summary)
      reads this
      ensures summary == {} ==> t == bandTicks
      ensures summary != {} ==> t < bandTicks && Occupied(occupancy, t)
      ensures forall u: nat :: Occupied(occupancy, u) ==> u <= t < bandTicks
    {
      if summary == {} then bandTicks
      else
        assert forall u: nat :: Occupied(occupancy, u) ==> u / 64 / 64 in summary;
        TopOfMid(HighestBit(summary))
    }

    function LowestOccupied(): (t: nat)
      requires Coherent(bandTicks, occupancy, midSummary, summary)
      reads this
      ensures summary == {} ==> t == bandTicks
      ensures summary != {} ==> t < bandTicks && Occupied(occupancy, t)
      ensures forall u: nat :: Occupied(occupancy, u) ==> t <= u
    {
      if summary == {} then bandTicks
      else
        assert forall u: nat :: Occupied(occupancy, u) ==> u / 64 / 64 in summary;
        BottomOfMid(LowestBit(summary))
    }

    /** The highest occupied tick strictly below `tick`; bandTicks when there is none. */
    function HighestOccupiedBelow(tick: nat): (t: nat)
      requires Coherent(bandTicks, occupancy, midSummary, summary) && tick < bandTicks
      reads this
      ensures t != bandTicks ==> t < tick && Occupied(occupancy, t)
    {
      if summary == {} || tick == 0 then bandTicks
      else
        var word := tick / 64;
        var rest := BitsBelow(occupancy[word], tick % 64);
        if rest != {} then 64 * word + HighestBit(rest)
        else
          var mid := word / 64;
          var midRest := BitsBelow(midSummary[mid], word % 64);
          if midRest != {} then TopOfWord(64 * mid + HighestBit(midRest))
          else
            var topRest := BitsBelow(summary, mid);
            if topRest == {} then bandTicks else TopOfMid(HighestBit(topRest))
    }

    /** The lowest occupied tick strictly above `tick`; bandTicks when there is none. */
    function LowestOccupiedAbove(tick: nat): (t: nat)
      requires Coherent(bandTicks, occupancy, midSummary, summary) && tick < bandTicks
      reads this
      ensures t != bandTicks ==> tick < t < bandTicks && Occupied(occupancy, t)
    {
      if summary == {} || tick + 1 >= bandTicks then bandTicks
      else
        var word := tick / 64;
        var rest := BitsAbove(occupancy[word], tick % 64);
        if rest != {} then 64 * word + LowestBit(rest)
        else
          var mid := word / 64;
          var midRest := BitsAbove(midSummary[mid], word % 64);
          if midRest != {} then BottomOfWord(64 * mid + LowestBit(midRest))
          else
            var topRest := BitsAbove(summary, mid);
            if topRest == {} then bandTicks else BottomOfMid(LowestBit(topRest))
    }

    lemma NothingBetweenBelow(tick: nat, u: nat)
      requires Coherent(bandTicks, occupancy, midSummary, summary) && tick < bandTicks
      requires Occupied(occupancy, u) && u < tick
      ensures u <= HighestOccupiedBelow(tick) < bandTicks
    {
      ClimbBelow(bandTicks, occupancy, midSummary, summary, tick, u);
    }

    lemma NothingBetweenAbove(tick: nat, u: nat)
      requires Coherent(bandTicks, occupancy, midSummary, summary) && tick < bandTicks
      requires Occupied(occupancy, u) && tick < u
      ensures LowestOccupiedAbove(tick) <= u
    {
      ClimbAbove(bandTicks, occupancy, midSummary, summary, tick, u);
    }

    // ---------- levels ----------

    method Anchor(price: Price)
      requires Valid() && bandTicks != 0 && Levels == map[]
      modifies Repr
      ensures Valid() && fresh(Repr - old(Repr)) && Levels == map[]
      ensures InBand(price)
    {
      EmptyMeansNoLevels();
      base := price - bandTicks / 2;
      anchored := true;
      if ladder == null {
        // Uninitialised on purpose: a cell means nothing until its tick is occupied.
        ladder := new LevelSlot[bandTicks];
        occupancy := seq(WordsFor(bandTicks), _ => {});
        midSummary := seq(WordsFor(|occupancy|), _ => {});
        Repr := Repr + {ladder};
      }
      assert forall p :: p in Levels.Keys ==> false;
      assert forall t: nat :: !Occupied(occupancy, t) by {
        forall t: nat ensures !Occupied(occupancy, t) {
          if Occupied(occupancy, t) {
            OccupiedClimbs(bandTicks, occupancy, midSummary, summary, t);
          }
        }
      }
    }

    /** Afterwards the price has a level, an empty one if it is new. */
    method LevelFor(price: Price)
      requires Valid()
      modifies Repr
      ensures Valid() && fresh(Repr - old(Repr))
      ensures Levels == if price in old(Levels) then old(Levels) else old(Levels)[price := EMPTY_LEVEL]
    {
      // An empty side may take any base.
      if bandTicks != 0 && (!anchored || Empty()) {
        assert Levels == map[] by {
          EmptyMeansNoLevels();
        }
        Anchor(price);
      }
      if !InBand(price) {
        if price !in overflow {
          OpenOutOfBand(price);
        }
        return;
      }
      var tick := price - base;
      if !Occupied(occupancy, tick) {
        OpenInBand(tick);
      }
    }

    method OpenOutOfBand(price: Price)
      requires Valid() && !InBand(price) && price !in overflow && (anchored || bandTicks == 0)
      modifies Repr
      ensures Valid() && Repr == old(Repr)
      ensures Levels == old(Levels)[price := EMPTY_LEVEL]
    {
      overflow := overflow[price := EMPTY_LEVEL];
      Levels := Levels[price := EMPTY_LEVEL];
    }

    method OpenInBand(tick: nat)
      requires Valid() && anchored && tick < bandTicks && !Occupied(occupancy, tick)
      modifies Repr
      ensures Valid() && Repr == old(Repr)
      ensures Levels == old(Levels)[old(base) + tick := EMPTY_LEVEL]
    {
      hide Coherent, Occupied;
      SetOccupied(tick);
      ladder[tick] := EMPTY_LEVEL;
      Levels := Levels[base + tick := EMPTY_LEVEL];
    }

    function LevelAt(price: Price): (level: LevelSlot)
      requires Valid() && price in Levels
      reads this, Repr
      ensures level == Levels[price]
    {
      if InBand(price) then ladder[price - base] else overflow[price]
    }

    /** Writes through the reference that level_for, find_level and level_at hand out. */
    method StoreLevel(price: Price, level: LevelSlot)
      requires Valid() && price in Levels
      modifies Repr
      ensures Valid() && Repr == old(Repr)
      ensures Levels == old(Levels)[price := level]
    {
      hide Coherent, Occupied;
      if InBand(price) {
        ladder[price - base] := level;
      } else {
        overflow := overflow[price := level];
      }
      Levels := Levels[price := level];
    }

    method EraseLevel(price: Price)
      requires Valid() && price in Levels
      modifies Repr
      ensures Valid() && Repr == old(Repr)
      ensures Levels == old(Levels) - {price}
    {
      if InBand(price) {
        EraseInBand(price - base);
      } else {
        EraseOutOfBand(price);
      }
    }

    method EraseInBand(tick: nat)
      requires Valid() && anchored && tick < bandTicks && base + tick in Levels
      modifies Repr
      ensures Valid() && Repr == old(Repr)
      ensures Levels == old(Levels) - {old(base) + tick}
    {
      hide Coherent, Occupied;
      ClearOccupied(tick);
      Levels := Levels - {base + tick};
    }

    method EraseOutOfBand(price: Price)
      requires Valid() && !InBand(price) && price in Levels
      modifies Repr
      ensures Valid() && Repr == old(Repr)
      ensures Levels == old(Levels) - {price}
    {
      hide Coherent, Occupied;
      overflow := overflow - {price};
      Levels := Levels - {price};
    }

    // ---------- priority order ----------

    lemma LadderEmpty()
      requires Valid() && summary == {}
      ensures Levels.Keys == overflow.Keys
    {
      assert forall q :: q in overflow ==> q in Levels;
      assert anchored ==> forall t: nat :: !Occupied(occupancy, t) by {
        if anchored {
          var t := HighestOccupied();
        }
      }
      assert forall q :: q in Levels ==> q in overflow;
    }

    /** The tick of the ladder's best level. */
    function BestTick(): (tick: nat)
      requires Valid() && anchored
      reads this, Repr
      ensures summary == {} <==> tick == bandTicks
      ensures tick != bandTicks ==> base + tick in Levels
      ensures forall q :: q in Levels && InBand(q) ==> q == base + tick || Better(side, base + tick, q)
    {
      assert forall q :: q in Levels && InBand(q) ==> Occupied(occupancy, q - base);
      if side.Buy? then HighestOccupied() else LowestOccupied()
    }

    function BestPrice(): (p: Price)
      requires Valid() && Levels != map[]
      reads this, Repr
      ensures IsBest(side, p, Levels.Keys)
    {
      hide Coherent, Occupied;
      if !anchored || BestTick() == bandTicks then
        LadderEmpty();
        Extreme(side, overflow.Keys)
      else
        var laddered := base + BestTick();
        if overflow == map[] then laddered
        else
          var spilled := Extreme(side, overflow.Keys);
          if Better(side, laddered, spilled) then laddered else spilled
    }

    /** Where the walk goes from `price`: the best of the levels that are worse. */
    function NextPrice(price: Price): (next: Option<Price>)
      requires Valid()
      reads this, Repr
      ensures next.None? ==> forall q :: q in Levels ==> !Better(side, price, q)
      ensures next.Some? ==> IsBest(side, next.value, WorseThan(side, Levels.Keys, price))
    {
      var worse := WorseThan(side, overflow.Keys, price);
      var spilled := if worse == {} then None else Some(Extreme(side, worse));
      var laddered := NextInBand(price);
      assert forall q :: q in Levels && Better(side, price, q) ==>
          if InBand(q) then laddered.Some? && (q == laddered.value || Better(side, laddered.value, q))
          else q in worse by {
        forall q | q in Levels && InBand(q) && Better(side, price, q)
          ensures laddered.Some? && (q == laddered.value || Better(side, laddered.value, q))
        {
          NextInBandComesFirst(price, q);
        }
      }
      if laddered.None? then spilled
      else if spilled.None? then laddered
      else if Better(side, laddered.value, spilled.value) then laddered else spilled
    }

    /** The tick of the ladder's own candidate, bandTicks if it has none; `price` may lie outside the band. */
    function NextTick(price: Price): (tick: nat)
      requires Valid() && anchored
      reads this, Repr
      ensures tick != bandTicks ==> tick < bandTicks && Occupied(occupancy, tick) && Better(side, price, base + tick)
    {
      var first, last := base, base + bandTicks - 1;
      if side.Buy? then
        if price > last then HighestOccupied()
        else if price <= first then bandTicks
        else HighestOccupiedBelow(price - base)
      else
        if price < first then LowestOccupied()
        else if price >= last then bandTicks
        else LowestOccupiedAbove(price - base)
    }

    function NextInBand(price: Price): (next: Option<Price>)
      requires Valid()
      reads this, Repr
      ensures next.Some? ==> InBand(next.value) && next.value in Levels && Better(side, price, next.value)
    {
      if !anchored || summary == {} then None
      else
        var tick := NextTick(price);
        if tick == bandTicks then None
        else
          assert base + tick in Levels;
          Some(base + tick)
    }

    /** From the best level to the worst, the way every walk over a side goes. */
    method WalkPrices() returns (walk: seq<Price>)
      requires Valid()
      ensures walk == PriceWalk(side, Levels.Keys)
      ensures forall p :: p in walk <==> p in Levels
      ensures forall i, j :: 0 <= i < j < |walk| ==> Better(side, walk[i], walk[j])
    {
      hide Valid, Extreme, PriceWalk, WorseThan, IsBest, Better, RestOfWalk, BestPrice, NextPrice, Empty;
      walk := [];
      WalkOfNothing(side, Levels.Keys);
      EmptyMeansNothing(Levels);
      var price := None;
      if !Empty() {
        price := Some(BestPrice());
        WalkFrom(side, Levels.Keys, price.value);
      }
      while price.Some?
        invariant price.Some? ==> price.value in Levels
        invariant walk + RestOfWalk(side, Levels.Keys, price) == PriceWalk(side, Levels.Keys)
        decreases if price.Some? then |WorseThan(side, Levels.Keys, price.value)| + 1 else 0
      {
        var next := NextPrice(price.value);
        WalkGoesOn(side, Levels.Keys, price.value, next);
        RestSplits(side, Levels.Keys, price.value);
        assert walk + RestOfWalk(side, Levels.Keys, price)
            == walk + [price.value] + RestOfWalk(side, Levels.Keys, next);
        walk := walk + [price.value];
        price := next;
      }
      PriceWalkVisitsAll(side, Levels.Keys);
    }

    lemma NextInBandComesFirst(price: Price, q: Price)
      requires Valid() && q in Levels && InBand(q) && Better(side, price, q)
      ensures NextInBand(price).Some?
      ensures q == NextInBand(price).value || Better(side, NextInBand(price).value, q)
    {
      hide Coherent;
      assert Occupied(occupancy, q - base);
      OccupiedClimbs(bandTicks, occupancy, midSummary, summary, q - base);
      if side.Buy? && base < price <= base + bandTicks - 1 {
        NothingBetweenBelow(price - base, q - base);
      } else if side.Sell? && base <= price < base + bandTicks - 1 {
        NothingBetweenAbove(price - base, q - base);
      }
    }
  }
}
