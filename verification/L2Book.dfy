/** The price-level replica of the book: one quantity per price, and no entry for a quantity of zero. */
module L2BookModule {
  import opened Types

  datatype Levels = Levels(bids: map<int, nat>, asks: map<int, nat>) {

    /** The quantity at a price; a missing level has none. */
    function At(side: Side, price: int): nat {
      match side
      case Buy => if price in bids then bids[price] else 0
      case Sell => if price in asks then asks[price] else 0
      case NoSide => 0
    }

    /** A level is listed. */
    predicate Lists(side: Side, price: int) {
      match side
      case Buy => price in bids
      case Sell => price in asks
      case NoSide => false
    }

    predicate NoZero() {
      && (forall p :: p in bids ==> bids[p] > 0)
      && (forall p :: p in asks ==> asks[p] > 0)
    }
  }

  const EMPTY := Levels(map[], map[])

  /** What one message of the level-2 feed does: a snapshot starts afresh, zero deletes, else assign. */
  function Apply(l: Levels, side: Side, price: int, qty: nat): Levels {
    match side
    case NoSide => EMPTY
    case Buy => l.(bids := if qty == 0 then l.bids - {price} else l.bids[price := qty])
    case Sell => l.(asks := if qty == 0 then l.asks - {price} else l.asks[price := qty])
  }

  /**
   A message sets exactly one level's quantity, and lists the level exactly when the quantity is positive;
   a snapshot start unlists everything. A book without zero entries stays without them.
   */
  lemma ApplySetsOneLevel(l: Levels, side: Side, price: int, qty: nat)
    ensures l.NoZero() ==> Apply(l, side, price, qty).NoZero()
    ensures side == NoSide ==> forall s, p :: Apply(l, side, price, qty).At(s, p) == 0
    ensures side != NoSide ==> forall s, p ::
              Apply(l, side, price, qty).At(s, p) == if s == side && p == price then qty else l.At(s, p)
    ensures l.NoZero() ==> forall s, p ::
              Apply(l, side, price, qty).Lists(s, p) <==> Apply(l, side, price, qty).At(s, p) > 0
  {
  }

  class L2Book {
    var bids: map<int, nat>
    var asks: map<int, nat>

    function Contents(): Levels
      reads this
    {
      Levels(bids, asks)
    }

    predicate Valid()
      reads this
    {
      Contents().NoZero()
    }

    constructor ()
      ensures Valid() && Contents() == EMPTY
    {
      bids, asks := map[], map[];
    }

    method Update(side: Side, price: int, qty: nat)
      requires Valid()
      modifies this
      ensures Valid()
      ensures Contents() == Apply(old(Contents()), side, price, qty)
    {
      if side == NoSide {
        bids, asks := map[], map[];
        return;
      }
      if side == Buy {
        if qty == 0 {
          bids := bids - {price};
        } else {
          bids := bids[price := qty];
        }
      } else {
        if qty == 0 {
          asks := asks - {price};
        } else {
          asks := asks[price := qty];
        }
      }
    }
  }
}
