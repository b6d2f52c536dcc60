/** What the advanced market maker's signals are, over every feed, in terms of the feed alone. */
module AdvancedSignals {
  import opened Types
  import opened MMAdvancedModule
  import L2 = L2BookModule

  // ----- the signals that come from the book

  /** The last book that had both sides right after a level-2 message. */
  function LastTwoSided(es: seq<FeedEvent>): Option<L2.Levels> {
    if es == [] then None
    else
      var book := BookAfter(es);
      if es[|es| - 1].BookEvent? && book.bids != map[] && book.asks != map[] then Some(book)
      else LastTwoSided(es[..|es| - 1])
  }

  /** The book signals of a two-sided book whose five best levels a side are listed best first. */
  predicate BookSignalsAre(s: Signals, bids: seq<PriceLevel>, asks: seq<PriceLevel>)
    requires bids != [] && asks != []
  {
    var bidDepth, askDepth := QtySum(bids) as real, QtySum(asks) as real;
    && s.bestBidP == bids[0].price && s.bestBidQ == bids[0].qty
    && s.bestAskP == asks[0].price && s.bestAskQ == asks[0].qty
    && s.bestBidQ + s.bestAskQ > 0
    && s.microPrice * (s.bestBidQ + s.bestAskQ) as real
       == (s.bestAskP * s.bestBidQ + s.bestBidP * s.bestAskQ) as real
    && bidDepth + askDepth > 0.0
    && s.obi * (bidDepth + askDepth) == bidDepth - askDepth
  }

  /** The best entry of a listing is an entry of the book, and the listing's depth is positive. */
  lemma TopOfSide(levels: map<int, nat>, highest: bool, top: seq<PriceLevel>)
    requires levels != map[] && forall p :: p in levels ==> levels[p] > 0
    requires IsTop(levels, highest, 5, top)
    ensures top != [] && top[0].price == Best(levels.Keys, highest)
    ensures top[0].qty == levels[top[0].price] > 0
    ensures QtySum(top) == DepthQty(levels, highest, 5) > 0
  {
    DepthIsOfTop(levels, highest, 5, top);
    DepthPositive(levels, highest);
  }

  lemma OnBookSignals(s: Signals, book: L2.Levels, bids: seq<PriceLevel>, asks: seq<PriceLevel>)
    requires book.NoZero() && book.bids != map[] && book.asks != map[]
    requires IsTop(book.bids, true, 5, bids) && IsTop(book.asks, false, 5, asks)
    ensures bids != [] && asks != [] && BookSignalsAre(OnBook(s, book), bids, asks)
  {
    hide IsTop, DepthQty, QtySum;
    TopOfSide(book.bids, true, bids);
    TopOfSide(book.asks, false, asks);
    var b, a := QtySum(bids) as real, QtySum(asks) as real;
    Quotient(b - a, b + a);
    var t := OnBook(s, book);
    Quotient((t.bestAskP * t.bestBidQ + t.bestBidP * t.bestAskQ) as real, (t.bestBidQ + t.bestAskQ) as real);
  }

  /** The book signals are those of the given last two-sided book, or all zero. */
  ghost predicate BookSignalsOf(s: Signals, last: Option<L2.Levels>) {
    match last
    case None =>
      && s.bestBidP == 0 && s.bestBidQ == 0 && s.bestAskP == 0 && s.bestAskQ == 0
      && s.microPrice == 0.0 && s.obi == 0.0
    case Some(book) =>
      forall bids, asks :: IsTop(book.bids, true, 5, bids) && IsTop(book.asks, false, 5, asks) ==>
        bids != [] && asks != [] && BookSignalsAre(s, bids, asks)
  }

  lemma OnBookSignalsOf(s: Signals, book: L2.Levels)
    requires book.NoZero() && book.bids != map[] && book.asks != map[]
    ensures BookSignalsOf(OnBook(s, book), Some(book))
  {
    hide IsTop, BookSignalsAre, OnBook;
    forall bids, asks | IsTop(book.bids, true, 5, bids) && IsTop(book.asks, false, 5, asks)
      ensures bids != [] && asks != [] && BookSignalsAre(OnBook(s, book), bids, asks)
    {
      OnBookSignals(s, book, bids, asks);
    }
  }

  lemma OnTradeKeepsBookSignals(s: Signals, p: int, q: nat, last: Option<L2.Levels>)
    requires BookSignalsOf(s, last)
    ensures BookSignalsOf(OnTrade(s, p, q), last)
  {
    hide IsTop;
  }

  /**
   Over every feed: best prices, micro-price and imbalance are those of the last two-sided book, and all zero
   while there was none.
   */
  lemma {:induction false} BookSignalsOfFeed(es: seq<FeedEvent>)
    ensures BookSignalsOf(SignalsAfter(es), LastTwoSided(es))
  {
    if es != [] {
      var s, last := SignalsAfter(es[..|es| - 1]), LastTwoSided(es[..|es| - 1]);
      BookSignalsOfFeed(es[..|es| - 1]);
      BookAfterNoZero(es);
      match es[|es| - 1] {
        case TradeEvent(p, q) =>
          OnTradeKeepsBookSignals(s, p, q, last);
        case BookEvent(_, _, _) =>
          if BookAfter(es).bids != map[] && BookAfter(es).asks != map[] {
            hide BookSignalsOf;
            OnBookSignalsOf(s, BookAfter(es));
          }
      }
    }
  }

  // ----- the signals that come from the trades

  /** The number of trades from a place in the feed on. */
  function TradesFrom(es: seq<FeedEvent>, i: nat): nat
    requires i <= |es|
    decreases |es| - i
  {
    if i == |es| then 0 else (if es[i].TradeEvent? then 1 else 0) + TradesFrom(es, i + 1)
  }

  /** 0.95 to the power of n. */
  function Weight(n: nat): real {
    if n == 0 then 1.0 else 0.95 * Weight(n - 1)
  }

  /** A trade that reached half the sum of the best prices recorded just before it. */
  ghost predicate LiftsMid(es: seq<FeedEvent>, i: nat)
    requires i < |es|
  {
    var s := SignalsAfter(es[..i]);
    es[i].TradeEvent? && 2 * es[i].price >= s.bestBidP + s.bestAskP
  }

  /** A trade's quantity if it is of the kind, weighted by all trades from it to the end of the feed. */
  ghost function Weighted(es: seq<FeedEvent>, i: nat, buying: bool): real
    requires i < |es|
  {
    if es[i].TradeEvent? && LiftsMid(es, i) == buying then es[i].qty as real * Weight(TradesFrom(es, i)) else 0.0
  }

  /** The weighted trades of one kind among the first n messages. */
  ghost function Flow(es: seq<FeedEvent>, n: nat, buying: bool): real
    requires n <= |es|
  {
    if n == 0 then 0.0 else Flow(es, n - 1, buying) + Weighted(es, n - 1, buying)
  }

  lemma {:induction false} TradesFromShorter(es: seq<FeedEvent>, i: nat)
    requires i < |es|
    ensures TradesFrom(es, i)
         == TradesFrom(es[..|es| - 1], i) + if es[|es| - 1].TradeEvent? then 1 else 0
    decreases |es| - i
  {
    if i < |es| - 1 {
      TradesFromShorter(es, i + 1);
    }
  }

  function Discount(e: FeedEvent): real {
    if e.TradeEvent? then 0.95 else 1.0
  }

  lemma DiscountedProduct(q: real, w: real)
    ensures q * (0.95 * w) == (q * w) * 0.95
  {
  }

  lemma WeightedShorter(es: seq<FeedEvent>, i: nat, buying: bool)
    requires i < |es| - 1
    ensures Weighted(es, i, buying) == Weighted(es[..|es| - 1], i, buying) * Discount(es[|es| - 1])
  {
    hide TradesFrom, SignalsAfter;
    TradesFromShorter(es, i);
    assert es[..|es| - 1][..i] == es[..i];
    assert LiftsMid(es, i) == LiftsMid(es[..|es| - 1], i);
    DiscountedProduct(es[i].qty as real, Weight(TradesFrom(es[..|es| - 1], i)));
  }

  lemma Distributed(a: real, b: real, k: real)
    ensures (a + b) * k == a * k + b * k
  {
  }

  /** One more message discounts all earlier flow once if it is a trade. */
  lemma {:induction false} FlowShorter(es: seq<FeedEvent>, n: nat, buying: bool)
    requires n < |es|
    ensures Flow(es, n, buying) == Flow(es[..|es| - 1], n, buying) * Discount(es[|es| - 1])
  {
    if n > 0 {
      hide Weighted, Discount;
      FlowShorter(es, n - 1, buying);
      WeightedShorter(es, n - 1, buying);
      Distributed(Flow(es[..|es| - 1], n - 1, buying), Weighted(es[..|es| - 1], n - 1, buying),
                  Discount(es[|es| - 1]));
    }
  }

  /** A flow after one more trade. */
  function Grown(flow: real, counts: bool, q: nat): real {
    (flow + if counts then q as real else 0.0) * 0.95
  }

  /** The flow after one more message: a trade of the kind joins it, and a trade discounts all of it. */
  lemma FlowNext(es: seq<FeedEvent>, buying: bool)
    requires es != []
    ensures var e, n := es[|es| - 1], |es| - 1;
            Flow(es, |es|, buying)
            == if e.BookEvent? then Flow(es[..n], n, buying)
               else Grown(Flow(es[..n], n, buying), LiftsMid(es, n) == buying, e.qty)
  {
    hide LiftsMid;
    FlowShorter(es, |es| - 1, buying);
    assert TradesFrom(es, |es|) == 0;
    assert Weight(1) == 0.95 * Weight(0) == 0.95;
  }

  /** The flow signals are these volumes and their imbalance. */
  predicate FlowSignalsAre(s: Signals, buy: real, sell: real) {
    && s.aggressiveBuyVol == buy && s.aggressiveSellVol == sell
    && buy >= 0.0 && sell >= 0.0
    && (buy + sell > 0.0 ==> s.toxicity * (buy + sell) == buy - sell)
    && (buy + sell == 0.0 ==> s.toxicity == 0.0)
  }

  lemma OnTradeFlow(s: Signals, p: int, q: nat, buy: real, sell: real)
    requires FlowSignalsAre(s, buy, sell)
    ensures var lifts := 2 * p >= s.bestBidP + s.bestAskP;
            FlowSignalsAre(OnTrade(s, p, q), Grown(buy, lifts, q), Grown(sell, !lifts, q))
  {
    var lifts := 2 * p >= s.bestBidP + s.bestAskP;
    assert lifts <==> p as real >= (s.bestBidP + s.bestAskP) as real / 2.0;
    var b, c := Grown(buy, lifts, q), Grown(sell, !lifts, q);
    if b + c > 0.0 {
      Quotient(b - c, b + c);
    }
  }

  lemma OnBookKeepsFlow(s: Signals, book: L2.Levels, buy: real, sell: real)
    requires FlowSignalsAre(s, buy, sell) && book.NoZero()
    ensures FlowSignalsAre(OnBook(s, book), buy, sell)
  {
  }

  /**
   Over every feed: the two volumes are the trades that reached the recorded mid and those that did not, each
   discounted by 0.95 for every trade from it on; the toxicity is their imbalance, zero while there is no flow.
   */
  lemma {:induction false} FlowSignalsOfFeed(es: seq<FeedEvent>)
    ensures FlowSignalsAre(SignalsAfter(es), Flow(es, |es|, true), Flow(es, |es|, false))
  {
    if es != [] {
      hide Flow, OnTrade, OnBook, Grown, FlowSignalsAre;
      var n, s := |es| - 1, SignalsAfter(es[..|es| - 1]);
      var buy, sell := Flow(es[..n], n, true), Flow(es[..n], n, false);
      FlowSignalsOfFeed(es[..n]);
      FlowNext(es, true);
      FlowNext(es, false);
      match es[n] {
        case TradeEvent(p, q) => OnTradeFlow(s, p, q, buy, sell);
        case BookEvent(_, _, _) =>
          BookAfterNoZero(es);
          OnBookKeepsFlow(s, BookAfter(es), buy, sell);
      }
    }
  }
}
