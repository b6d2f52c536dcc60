/** The advanced market maker: signals from the level-2 and level-3 feeds, quotes, and taking. */
module MMAdvancedModule {
  import opened Types
  import opened Rounding
  import opened AlgoClientModule
  import A = AccountModule
  import L2 = L2BookModule

  const TOP: nat := 5

  // ----- the best levels of one side

  /** Bids are better when higher, asks when lower. */
  predicate AtLeastAsGood(highest: bool, p: int, q: int) {
    if highest then p >= q else p <= q
  }

  lemma SomeMember<T>(s: set<T>) returns (x: T)
    requires s != {}
    ensures x in s
  {
    x :| x in s;
  }

  lemma {:induction false} BestExists(prices: set<int>, highest: bool)
    requires prices != {}
    ensures exists p :: p in prices && forall q :: q in prices ==> AtLeastAsGood(highest, p, q)
  {
    var x := SomeMember(prices);
    if prices != {x} {
      BestExists(prices - {x}, highest);
      var y :| y in prices - {x} && forall q :: q in prices - {x} ==> AtLeastAsGood(highest, y, q);
      var best := if AtLeastAsGood(highest, x, y) then x else y;
      forall q | q in prices ensures AtLeastAsGood(highest, best, q) {
        assert q == x || q in prices - {x};
      }
      assert best in prices && forall q :: q in prices ==> AtLeastAsGood(highest, best, q);
    }
  }

  ghost function Best(prices: set<int>, highest: bool): (p: int)
    requires prices != {}
    ensures p in prices && forall q :: q in prices ==> AtLeastAsGood(highest, p, q)
  {
    BestExists(prices, highest);
    var p :| p in prices && forall q :: q in prices ==> AtLeastAsGood(highest, p, q);
    p
  }

  /** The quantity of the `depth` best levels. */
  ghost function DepthQty(levels: map<int, nat>, highest: bool, depth: nat): nat {
    if depth == 0 || levels == map[] then 0
    else
      var p := Best(levels.Keys, highest);
      levels[p] + DepthQty(levels - {p}, highest, depth - 1)
  }

  datatype PriceLevel = PriceLevel(price: int, qty: nat)

  function QtySum(levels: seq<PriceLevel>): nat {
    if levels == [] then 0 else levels[0].qty + QtySum(levels[1..])
  }

  lemma {:induction false} QtySumAppend(levels: seq<PriceLevel>, l: PriceLevel)
    ensures QtySum(levels + [l]) == QtySum(levels) + l.qty
  {
    if levels != [] {
      QtySumAppend(levels[1..], l);
      assert (levels + [l])[1..] == levels[1..] + [l];
    }
  }

  predicate Better(highest: bool, p: int, q: int) {
    if highest then p > q else p < q
  }

  /** The listed levels are levels of the book, each strictly better than the next. */
  ghost predicate IsListing(book: map<int, nat>, highest: bool, levels: seq<PriceLevel>) {
    && (forall i :: 0 <= i < |levels| ==> levels[i].price in book && levels[i].qty == book[levels[i].price])
    && (forall i, j :: 0 <= i < j < |levels| ==> Better(highest, levels[i].price, levels[j].price))
  }

  ghost predicate Listed(levels: seq<PriceLevel>, p: int) {
    exists i :: 0 <= i < |levels| && levels[i].price == p
  }

  /** All of a listing is better than the price. */
  predicate AllBetter(highest: bool, levels: seq<PriceLevel>, p: int) {
    forall i :: 0 <= i < |levels| ==> Better(highest, levels[i].price, p)
  }

  /** A listing of the best levels, best first: only once it is full is a level left out, and then it is worse. */
  ghost predicate IsTop(book: map<int, nat>, highest: bool, depth: nat, levels: seq<PriceLevel>) {
    && |levels| <= depth
    && IsListing(book, highest, levels)
    && forall p :: p in book ==> Listed(levels, p) || (|levels| == depth && AllBetter(highest, levels, p))
  }

  /** The depth of a book side is the quantity of any such listing. */
  lemma {:induction false} DepthIsOfTop(book: map<int, nat>, highest: bool, depth: nat, levels: seq<PriceLevel>)
    requires IsTop(book, highest, depth, levels)
    ensures DepthQty(book, highest, depth) == QtySum(levels)
    ensures levels == [] <==> depth == 0 || book == map[]
    ensures levels != [] ==> levels[0].price == Best(book.Keys, highest)
  {
    if levels == [] {
      assert forall p :: p in book ==> depth == 0;
    } else {
      var p, rest := levels[0].price, levels[1..];
      forall q | q in book ensures AtLeastAsGood(highest, p, q) {
        if i :| 0 <= i < |levels| && levels[i].price == q { }
      }
      assert p == Best(book.Keys, highest);
      forall q | q in book - {p}
        ensures Listed(rest, q) || (|rest| == depth - 1 && AllBetter(highest, rest, q))
      {
        if i :| 0 <= i < |levels| && levels[i].price == q {
          assert rest[i - 1].price == q;
        }
      }
      DepthIsOfTop(book - {p}, highest, depth - 1, rest);
    }
  }

  lemma NothingListed(book: map<int, nat>, highest: bool)
    ensures IsListing(book, highest, []) && forall p :: !Listed([], p) && AllBetter(highest, [], p)
  {
  }

  /** A level worse than all of a listing may follow it. */
  lemma ListingNext(book: map<int, nat>, highest: bool, levels: seq<PriceLevel>, l: PriceLevel)
    requires IsListing(book, highest, levels)
    requires l.price in book && l.qty == book[l.price] && AllBetter(highest, levels, l.price)
    ensures IsListing(book, highest, levels + [l])
    ensures forall p :: Listed(levels + [l], p) <==> Listed(levels, p) || p == l.price
    ensures forall p :: AllBetter(highest, levels + [l], p) <==>
              AllBetter(highest, levels, p) && Better(highest, l.price, p)
  {
    var next := levels + [l];
    assert next[|levels|] == l;
    assert forall i :: 0 <= i < |levels| ==> next[i] == levels[i];
  }

  /** The first entries of a book side, best first, as iterating over the sorted map gives them. */
  method TopLevels(book: map<int, nat>, highest: bool) returns (levels: seq<PriceLevel>)
    ensures IsTop(book, highest, 5, levels)
  {
    hide IsListing, Listed, AllBetter;
    NothingListed(book, highest);
    levels := [];
    var rest := book;
    while rest != map[] && |levels| < TOP
      invariant |levels| <= TOP
      invariant IsListing(book, highest, levels)
      invariant forall p :: p in rest ==> p in book && rest[p] == book[p] && AllBetter(highest, levels, p)
      invariant forall p :: p in book ==> p in rest || Listed(levels, p)
      decreases TOP - |levels|
    {
      assert rest.Keys != {};
      BestExists(rest.Keys, highest);
      var p :| p in rest.Keys && forall q :: q in rest.Keys ==> AtLeastAsGood(highest, p, q);
      ListingNext(book, highest, levels, PriceLevel(p, rest[p]));
      levels := levels + [PriceLevel(p, rest[p])];
      rest := rest - {p};
    }
  }

  // ----- the signals

  datatype Signals = Signals(
    bestBidP: int, bestBidQ: nat, bestAskP: int, bestAskQ: nat, microPrice: real, obi: real,
    aggressiveBuyVol: real, aggressiveSellVol: real, toxicity: real)

  const NO_SIGNALS := Signals(0, 0, 0, 0, 0.0, 0.0, 0.0, 0.0, 0.0)

  /** The mid price weighted by the opposite quantities. */
  function MicroPrice(bidP: int, bidQ: nat, askP: int, askQ: nat): real
    requires bidQ + askQ > 0
  {
    (askP * bidQ + bidP * askQ) as real / (bidQ + askQ) as real
  }

  lemma DepthPositive(levels: map<int, nat>, highest: bool)
    requires levels != map[] && forall p :: p in levels ==> levels[p] > 0
    ensures levels.Keys != {} && DepthQty(levels, highest, TOP) > 0
  {
    assert levels.Keys != {};
  }

  /** The signals after a level-2 message; a one-sided book leaves them as they are. */
  ghost function OnBook(s: Signals, book: L2.Levels): Signals
    requires book.NoZero()
  {
    if book.bids == map[] || book.asks == map[] then s
    else
      var bid, ask := Best(book.bids.Keys, true), Best(book.asks.Keys, false);
      var bidQ, askQ := DepthQty(book.bids, true, TOP), DepthQty(book.asks, false, TOP);
      DepthPositive(book.bids, true);
      s.(bestBidP := bid, bestBidQ := book.bids[bid], bestAskP := ask, bestAskQ := book.asks[ask],
         microPrice := MicroPrice(bid, book.bids[bid], ask, book.asks[ask]),
         obi := (bidQ as real - askQ as real) / (bidQ as real + askQ as real))
  }

  function Decay(s: Signals): Signals {
    var buy, sell := s.aggressiveBuyVol * 0.95, s.aggressiveSellVol * 0.95;
    var t := s.(aggressiveBuyVol := buy, aggressiveSellVol := sell);
    if buy + sell > 0.0 then t.(toxicity := (buy - sell) / (buy + sell)) else t
  }

  /** The signals after a trade on the level-3 feed. */
  function OnTrade(s: Signals, p: int, q: nat): Signals {
    var mid := (s.bestBidP + s.bestAskP) as real / 2.0;
    var t := if p as real >= mid then s.(aggressiveBuyVol := s.aggressiveBuyVol + q as real)
             else s.(aggressiveSellVol := s.aggressiveSellVol + q as real);
    Decay(t)
  }

  // ----- what the signals always satisfy

  predicate Between(x: real, a: int, b: int) {
    (a as real <= x <= b as real) || (b as real <= x <= a as real)
  }

  ghost predicate SignalInv(s: Signals) {
    && Between(s.microPrice, s.bestBidP, s.bestAskP)
    && -1.0 <= s.obi <= 1.0
    && s.aggressiveBuyVol >= 0.0 && s.aggressiveSellVol >= 0.0
    && -1.0 <= s.toxicity <= 1.0
  }

  lemma DivBounds(x: real, y: real, lo: real, hi: real)
    requires y > 0.0 && lo * y <= x <= hi * y
    ensures lo <= x / y <= hi
  {
  }

  lemma WeightedBounds(a: int, m: nat, b: int, n: nat, lo: int, hi: int)
    requires lo <= a <= hi && lo <= b <= hi
    ensures lo * (m + n) <= a * m + b * n <= hi * (m + n)
  {
    assert (a - lo) * m >= 0 && (b - lo) * n >= 0;
    assert (hi - a) * m >= 0 && (hi - b) * n >= 0;
  }

  lemma ProductAsReal(a: int, b: int)
    ensures (a * b) as real == a as real * b as real
  {
  }

  lemma MicroPriceBetween(bidP: int, bidQ: nat, askP: int, askQ: nat)
    requires bidQ + askQ > 0
    ensures Between(MicroPrice(bidP, bidQ, askP, askQ), bidP, askP)
  {
    var x, y := askP * bidQ + bidP * askQ, bidQ + askQ;
    var lo, hi := if bidP <= askP then bidP else askP, if bidP <= askP then askP else bidP;
    WeightedBounds(askP, bidQ, bidP, askQ, lo, hi);
    ProductAsReal(lo, y);
    ProductAsReal(hi, y);
    DivBounds(x as real, y as real, lo as real, hi as real);
  }

  /** The imbalance of two volumes that are not both zero. */
  lemma ImbalanceBounds(a: real, b: real)
    requires a >= 0.0 && b >= 0.0 && a + b > 0.0
    ensures -1.0 <= (a - b) / (a + b) <= 1.0
  {
    DivBounds(a - b, a + b, -1.0, 1.0);
  }

  /** A level-2 message keeps the signals in range; the denominators are positive as no level is empty. */
  lemma OnBookKeepsInv(s: Signals, book: L2.Levels)
    requires SignalInv(s) && book.NoZero()
    ensures SignalInv(OnBook(s, book))
  {
    if book.bids != map[] && book.asks != map[] {
      var bid, ask := Best(book.bids.Keys, true), Best(book.asks.Keys, false);
      MicroPriceBetween(bid, book.bids[bid], ask, book.asks[ask]);
      DepthPositive(book.bids, true);
      ImbalanceBounds(DepthQty(book.bids, true, TOP) as real, DepthQty(book.asks, false, TOP) as real);
    }
  }

  lemma OnTradeKeepsInv(s: Signals, p: int, q: nat)
    requires SignalInv(s)
    ensures SignalInv(OnTrade(s, p, q))
  {
    var mid := (s.bestBidP + s.bestAskP) as real / 2.0;
    var buy := (if p as real >= mid then s.aggressiveBuyVol + q as real else s.aggressiveBuyVol) * 0.95;
    var sell := (if p as real >= mid then s.aggressiveSellVol else s.aggressiveSellVol + q as real) * 0.95;
    if buy + sell > 0.0 {
      ImbalanceBounds(buy, sell);
    }
  }

  // ----- whole feeds

  /** A message of the target symbol's feeds: a level-2 update, or a level-3 trade. */
  datatype FeedEvent = BookEvent(side: Side, price: int, qty: nat) | TradeEvent(price: int, qty: nat)

  function BookAfter(es: seq<FeedEvent>): L2.Levels {
    if es == [] then L2.EMPTY
    else
      match es[|es| - 1]
      case BookEvent(side, p, q) => L2.Apply(BookAfter(es[..|es| - 1]), side, p, q)
      case TradeEvent(_, _) => BookAfter(es[..|es| - 1])
  }

  lemma {:induction false} BookAfterNoZero(es: seq<FeedEvent>)
    ensures BookAfter(es).NoZero()
  {
    if es != [] {
      BookAfterNoZero(es[..|es| - 1]);
    }
  }

  ghost function SignalsAfter(es: seq<FeedEvent>): Signals {
    if es == [] then NO_SIGNALS
    else
      var s := SignalsAfter(es[..|es| - 1]);
      BookAfterNoZero(es);
      match es[|es| - 1]
      case BookEvent(_, _, _) => OnBook(s, BookAfter(es))
      case TradeEvent(p, q) => OnTrade(s, p, q)
  }

  /** Over all streams: no empty level, the micro-price between the best prices, imbalances within [-1, 1]. */
  lemma {:induction false} SignalsStayInRange(es: seq<FeedEvent>)
    ensures BookAfter(es).NoZero() && SignalInv(SignalsAfter(es))
  {
    BookAfterNoZero(es);
    if es != [] {
      SignalsStayInRange(es[..|es| - 1]);
      var s := SignalsAfter(es[..|es| - 1]);
      match es[|es| - 1]
      case BookEvent(_, _, _) => OnBookKeepsInv(s, BookAfter(es));
      case TradeEvent(p, q) => OnTradeKeepsInv(s, p, q);
    }
  }

  // ----- quotes

  function AbsInt(x: int): nat {
    if x < 0 then -x else x
  }

  function HalfSpread(s: Signals, inventory: int): real {
    2.0 + Abs(s.obi) * 1.5 + Abs(s.toxicity) * 3.0 + AbsInt(inventory) as real * 0.1
  }

  function ReservationPrice(s: Signals, inventory: int): real {
    s.microPrice + (-inventory) as real * 0.5
  }

  function TargetBid(s: Signals, inventory: int): int {
    Round(ReservationPrice(s, inventory) - HalfSpread(s, inventory))
  }

  function TargetAsk(s: Signals, inventory: int): int {
    Round(ReservationPrice(s, inventory) + HalfSpread(s, inventory))
  }

  /** The two targets are at least 4 apart, rounding included. */
  lemma TargetsApart(s: Signals, inventory: int)
    ensures TargetBid(s, inventory) + 4 <= TargetAsk(s, inventory)
  {
    var r, h := ReservationPrice(s, inventory), HalfSpread(s, inventory);
    assert h >= 2.0;
    RoundShift(r - h, 4);
    RoundIsMonotonic(r - h + 4.0, r + h);
  }

  /** More inventory never raises a target, although more inventory either way widens the spread. */
  lemma TargetsFallWithInventory(s: Signals, i: int, j: int)
    requires i <= j
    ensures TargetBid(s, j) <= TargetBid(s, i) && TargetAsk(s, j) <= TargetAsk(s, i)
    ensures AbsInt(i) <= AbsInt(j) ==> HalfSpread(s, i) <= HalfSpread(s, j)
    ensures AbsInt(j) <= AbsInt(i) ==> HalfSpread(s, j) <= HalfSpread(s, i)
  {
    var d := (j - i) as real;
    assert ReservationPrice(s, j) == ReservationPrice(s, i) - d * 0.5;
    assert -d * 0.1 <= HalfSpread(s, j) - HalfSpread(s, i) <= d * 0.1;
    RoundIsMonotonic(ReservationPrice(s, j) - HalfSpread(s, j), ReservationPrice(s, i) - HalfSpread(s, i));
    RoundIsMonotonic(ReservationPrice(s, j) + HalfSpread(s, j), ReservationPrice(s, i) + HalfSpread(s, i));
  }

  predicate Quotes(s: Signals, side: Side) {
    match side
    case Buy => s.toxicity > -0.8
    case Sell => s.toxicity < 0.8
    case NoSide => false
  }

  function Target(s: Signals, inventory: int, side: Side): int {
    if side == Buy then TargetBid(s, inventory) else TargetAsk(s, inventory)
  }

  /** The open order is a quote of this symbol that may stay. */
  predicate Holds(s: Signals, inventory: int, symbolId: nat, o: OrderResponse) {
    o.symbolId == symbolId && Quotes(s, o.side) && AbsInt(o.p - Target(s, inventory, o.side)) <= 1
  }

  function CancelIfPulled(s: Signals, inventory: int, symbolId: nat, o: OrderResponse): seq<OrderRequest> {
    if o.symbolId == symbolId && o.side != NoSide && !Holds(s, inventory, symbolId, o)
    then [CancelRequest(o.orderId, symbolId, o.side)] else []
  }

  function Cancels(s: Signals, inventory: int, symbolId: nat, open: seq<OrderResponse>): seq<OrderRequest> {
    if open == [] then []
    else
      Cancels(s, inventory, symbolId, open[..|open| - 1])
      + CancelIfPulled(s, inventory, symbolId, open[|open| - 1])
  }

  predicate HasQuote(s: Signals, inventory: int, symbolId: nat, open: seq<OrderResponse>, side: Side) {
    exists i :: 0 <= i < |open| && open[i].side == side && Holds(s, inventory, symbolId, open[i])
  }

  const QUOTE_QTY: nat := 20

  function NewQuote(s: Signals, inventory: int, symbolId: nat, open: seq<OrderResponse>, side: Side)
      : seq<OrderRequest>
  {
    if !HasQuote(s, inventory, symbolId, open, side) && Quotes(s, side)
    then [NewRequest(symbolId, side, Limit, Target(s, inventory, side), QUOTE_QTY, 0)] else []
  }

  function QuoteRequests(s: Signals, inventory: int, symbolId: nat, open: seq<OrderResponse>): seq<OrderRequest> {
    Cancels(s, inventory, symbolId, open)
    + NewQuote(s, inventory, symbolId, open, Buy) + NewQuote(s, inventory, symbolId, open, Sell)
  }

  /** After the requests, a price of the symbol's side is quoted: by an order not cancelled, or a new one. */
  ghost predicate Quoted(requests: seq<OrderRequest>, symbolId: nat, open: seq<OrderResponse>, side: Side, p: int) {
    || (exists i :: 0 <= i < |open| && open[i].symbolId == symbolId && open[i].side == side && open[i].p == p
          && forall k :: 0 <= k < |requests| && requests[k].action == CancelOrder ==>
               requests[k].orderId != open[i].orderId)
    || (exists k :: 0 <= k < |requests| && requests[k].action == NewOrder
          && requests[k].symbolId == symbolId && requests[k].side == side && requests[k].p == p)
  }

  lemma {:induction false} PulledIsCancelled(
      s: Signals, inventory: int, symbolId: nat, open: seq<OrderResponse>, i: nat)
      returns (k: nat)
    requires i < |open| && open[i].symbolId == symbolId && open[i].side != NoSide
    requires !Holds(s, inventory, symbolId, open[i])
    ensures var cs := Cancels(s, inventory, symbolId, open);
            k < |cs| && cs[k].action == CancelOrder && cs[k].orderId == open[i].orderId
  {
    var n := |open| - 1;
    if i < n {
      k := PulledIsCancelled(s, inventory, symbolId, open[..n], i);
    } else {
      k := |Cancels(s, inventory, symbolId, open[..n])|;
    }
  }

  lemma PulledIsRequested(s: Signals, inventory: int, symbolId: nat, open: seq<OrderResponse>, i: nat)
      returns (k: nat)
    requires i < |open| && open[i].symbolId == symbolId && open[i].side != NoSide
    requires !Holds(s, inventory, symbolId, open[i])
    ensures var rs := QuoteRequests(s, inventory, symbolId, open);
            k < |rs| && rs[k].action == CancelOrder && rs[k].orderId == open[i].orderId
  {
    k := PulledIsCancelled(s, inventory, symbolId, open, i);
    assert QuoteRequests(s, inventory, symbolId, open)[k] == Cancels(s, inventory, symbolId, open)[k];
  }

  lemma {:induction false} CancelsOnlyCancel(s: Signals, inventory: int, symbolId: nat, open: seq<OrderResponse>)
    ensures forall k :: 0 <= k < |Cancels(s, inventory, symbolId, open)| ==>
              Cancels(s, inventory, symbolId, open)[k].action == CancelOrder
  {
    if open != [] {
      CancelsOnlyCancel(s, inventory, symbolId, open[..|open| - 1]);
    }
  }

  /** A quoted price lies within 1 of its side's target. */
  lemma QuotedNearTarget(s: Signals, inventory: int, symbolId: nat, open: seq<OrderResponse>, side: Side, p: int)
    requires side != NoSide && Quoted(QuoteRequests(s, inventory, symbolId, open), symbolId, open, side, p)
    ensures -1 <= p - (if side == Buy then TargetBid(s, inventory) else TargetAsk(s, inventory)) <= 1
  {
    var rs := QuoteRequests(s, inventory, symbolId, open);
    var cs := Cancels(s, inventory, symbolId, open);
    CancelsOnlyCancel(s, inventory, symbolId, open);
    if k :| 0 <= k < |rs| && rs[k].action == NewOrder && rs[k].side == side && rs[k].p == p {
      assert k >= |cs|;
    } else {
      var i :| 0 <= i < |open| && open[i].symbolId == symbolId && open[i].side == side && open[i].p == p
        && forall k :: 0 <= k < |rs| && rs[k].action == CancelOrder ==> rs[k].orderId != open[i].orderId;
      if !Holds(s, inventory, symbolId, open[i]) {
        var k := PulledIsRequested(s, inventory, symbolId, open, i);
        assert false;
      }
    }
  }

  /** After a tick every quoted bid of the symbol is at least 2 below every quoted ask. */
  lemma QuotesApart(s: Signals, inventory: int, symbolId: nat, open: seq<OrderResponse>, bid: int, ask: int)
    requires Quoted(QuoteRequests(s, inventory, symbolId, open), symbolId, open, Buy, bid)
    requires Quoted(QuoteRequests(s, inventory, symbolId, open), symbolId, open, Sell, ask)
    ensures bid + 2 <= ask
  {
    TargetsApart(s, inventory);
    QuotedNearTarget(s, inventory, symbolId, open, Buy, bid);
    QuotedNearTarget(s, inventory, symbolId, open, Sell, ask);
  }

  // ----- protection against adverse selection

  /** The micro-price has swept past the order while the flow runs against it. */
  predicate Swept(s: Signals, o: OrderResponse) {
    match o.side
    case Sell => s.microPrice > o.p as real + 2.0 && s.toxicity > 0.6
    case Buy => s.microPrice < o.p as real - 2.0 && s.toxicity < -0.6
    case NoSide => false
  }

  function FadeIfSwept(s: Signals, symbolId: nat, o: OrderResponse): seq<OrderRequest> {
    if o.symbolId == symbolId && Swept(s, o) then [CancelRequest(o.orderId, symbolId, o.side)] else []
  }

  /** The cancels of the symbol's swept orders, in their order. */
  function Fades(s: Signals, symbolId: nat, open: seq<OrderResponse>): seq<OrderRequest> {
    if open == [] then []
    else Fades(s, symbolId, open[..|open| - 1]) + FadeIfSwept(s, symbolId, open[|open| - 1])
  }

  lemma FadesNext(s: Signals, symbolId: nat, open: seq<OrderResponse>, i: nat)
    requires i < |open|
    ensures Fades(s, symbolId, open[..i + 1]) == Fades(s, symbolId, open[..i]) + FadeIfSwept(s, symbolId, open[i])
  {
    assert open[..i + 1][..i] == open[..i];
  }

  /**
   The micro-price lies more than 2 beyond the symbol's order, and the flow runs against it by more than 0.6.
   */
  predicate IsToFade(s: Signals, symbolId: nat, o: OrderResponse) {
    && o.symbolId == symbolId
    && (|| (o.side == Sell && s.microPrice - o.p as real > 2.0 && s.toxicity > 0.6)
        || (o.side == Buy && o.p as real - s.microPrice > 2.0 && -s.toxicity > 0.6))
  }

  /** The request cancels this order. */
  predicate IsCancelOf(o: OrderResponse, r: OrderRequest) {
    r.action == CancelOrder && r.orderId == o.orderId && r.symbolId == o.symbolId && r.side == o.side
  }

  /** The requests cancel the open orders at these places, which rise. */
  ghost predicate CancelsAt(open: seq<OrderResponse>, at: seq<nat>, rs: seq<OrderRequest>) {
    && |at| == |rs|
    && (forall k :: 0 <= k < |at| ==> at[k] < |open| && IsCancelOf(open[at[k]], rs[k]))
    && (forall j, k :: 0 <= j < k < |at| ==> at[j] < at[k])
  }

  /** One more open order, cancelled last or not at all. */
  lemma CancelsAtNext(open: seq<OrderResponse>, at: seq<nat>, rs: seq<OrderRequest>, more: seq<OrderRequest>)
      returns (at': seq<nat>)
    requires open != [] && CancelsAt(open[..|open| - 1], at, rs)
    requires more == [] || (|more| == 1 && IsCancelOf(open[|open| - 1], more[0]))
    ensures CancelsAt(open, at', rs + more) && at' == at + if more == [] then [] else [|open| - 1]
  {
    at' := at + if more == [] then [] else [|open| - 1];
    assert forall k :: 0 <= k < |at| ==> open[..|open| - 1][at[k]] == open[at[k]];
  }

  lemma {:induction false} FadesAt(s: Signals, symbolId: nat, open: seq<OrderResponse>) returns (at: seq<nat>)
    ensures CancelsAt(open, at, Fades(s, symbolId, open))
    ensures forall i: nat :: i in at <==> i < |open| && IsToFade(s, symbolId, open[i])
  {
    at := [];
    if open != [] {
      hide CancelsAt;
      var n := |open| - 1;
      var before := FadesAt(s, symbolId, open[..n]);
      at := CancelsAtNext(open, before, Fades(s, symbolId, open[..n]), FadeIfSwept(s, symbolId, open[n]));
      assert FadeIfSwept(s, symbolId, open[n]) != [] <==> IsToFade(s, symbolId, open[n]);
      hide IsToFade, FadeIfSwept;
      assert forall i: nat :: i < n ==> open[..n][i] == open[i];
    }
  }

  /**
   The protection cancels exactly the orders to fade, each once and in the order they are open, and never on both
   sides.
   */
  lemma FadesExactlySwept(s: Signals, symbolId: nat, open: seq<OrderResponse>) returns (at: seq<nat>)
    ensures CancelsAt(open, at, Fades(s, symbolId, open))
    ensures forall i: nat :: i in at <==> i < |open| && IsToFade(s, symbolId, open[i])
    ensures forall i, j :: i in at && j in at ==> open[i].side == open[j].side
  {
    hide CancelsAt, Fades;
    at := FadesAt(s, symbolId, open);
  }

  // ----- opportunistic taking

  function TakeRequest(s: Signals, symbolId: nat): Option<OrderRequest> {
    if s.obi > 0.8 && s.toxicity > 0.7 && s.microPrice > s.bestAskP as real + 0.5 then
      Some(NewRequest(symbolId, Buy, Market, 0, 10, 10))
    else if s.obi < -0.8 && s.toxicity < -0.7 && s.microPrice < s.bestBidP as real - 0.5 then
      Some(NewRequest(symbolId, Sell, Market, 0, 10, 10))
    else None
  }

  /** While the recorded top of book is not crossed, nothing is ever taken. */
  lemma UncrossedTakesNothing(es: seq<FeedEvent>, symbolId: nat)
    requires SignalsAfter(es).bestBidP <= SignalsAfter(es).bestAskP
    ensures TakeRequest(SignalsAfter(es), symbolId) == None
  {
    SignalsStayInRange(es);
  }

  /** With `f` the quotient of `x` by `r`, and `m` the multiple `a` of `r`. */
  lemma AboveByHalf(f: real, r: real, x: real, a: real, m: real)
    requires r > 0.0 && f * r == x && a * r == m
    ensures f > a + 0.5 <==> x > m + 0.5 * r
  {
    var d := f - a - 0.5;
    assert d * r == x - m - 0.5 * r;
    if d > 0.0 {
      assert d * r > 0.0;
    } else {
      assert d * r <= 0.0;
    }
  }

  lemma Quotient(x: real, y: real)
    requires y > 0.0
    ensures (x / y) * y == x
  {
  }

  lemma HalfUnits(x: int, m: int, y: int)
    ensures x as real > m as real + 0.5 * y as real <==> 2 * (x - m) > y
  {
    assert (2 * (x - m)) as real == 2.0 * (x as real - m as real);
  }

  lemma FractionAbove(x: int, y: int, a: int)
    requires y > 0
    ensures x as real / y as real > a as real + 0.5 <==> 2 * (x - a * y) > y
  {
    Quotient(x as real, y as real);
    ProductAsReal(a, y);
    AboveByHalf(x as real / y as real, y as real, x as real, a as real, (a * y) as real);
    HalfUnits(x, a * y, y);
  }

  lemma FractionBelow(x: int, y: int, b: int)
    requires y > 0
    ensures x as real / y as real < b as real - 0.5 <==> 2 * (b * y - x) > y
  {
    Quotient(x as real, y as real);
    ProductAsReal(b, y);
    AboveByHalf(b as real, y as real, (b * y) as real, x as real / y as real, x as real);
    HalfUnits(b * y, x, y);
  }

  /** How far the micro-price leaves the ask, or the bid: only by the crossing, weighted by quantity. */
  lemma MicroPriceBeyond(bidP: int, bidQ: nat, askP: int, askQ: nat)
    requires bidQ + askQ > 0
    ensures MicroPrice(bidP, bidQ, askP, askQ) > askP as real + 0.5
            <==> 2 * ((bidP - askP) * askQ) > bidQ + askQ
    ensures MicroPrice(bidP, bidQ, askP, askQ) < bidP as real - 0.5
            <==> 2 * ((bidP - askP) * bidQ) > bidQ + askQ
  {
    var x, y := askP * bidQ + bidP * askQ, bidQ + askQ;
    assert x == askP * y + (bidP - askP) * askQ;
    assert x == bidP * y - (bidP - askP) * bidQ;
    FractionAbove(x, y, askP);
    FractionBelow(x, y, bidP);
  }

  /** Before the first two-sided book there is no imbalance; from then on the micro-price is that of the top. */
  ghost predicate MicroInv(s: Signals) {
    if s.bestBidQ + s.bestAskQ == 0 then s.obi == 0.0
    else s.microPrice == MicroPrice(s.bestBidP, s.bestBidQ, s.bestAskP, s.bestAskQ)
  }

  lemma {:induction false} SignalsAreOfTheTop(es: seq<FeedEvent>)
    ensures MicroInv(SignalsAfter(es))
  {
    BookAfterNoZero(es);
    if es != [] {
      SignalsAreOfTheTop(es[..|es| - 1]);
    }
  }

  /** The book is crossed by more than half a tick, weighted by the quantity on the other side. */
  predicate CrossedEnough(s: Signals, weight: nat) {
    2 * ((s.bestBidP - s.bestAskP) * weight) > s.bestBidQ + s.bestAskQ
  }

  /**
   Over all feeds: a buy is sent exactly on strong buying pressure with the book crossed far enough, a sell
   exactly on strong selling pressure with the book crossed far enough.
   */
  lemma TakesExactlyWhenCrossedEnough(es: seq<FeedEvent>, symbolId: nat)
    ensures var s := SignalsAfter(es);
            && (TakeRequest(s, symbolId) == Some(NewRequest(symbolId, Buy, Market, 0, 10, 10)) <==>
                s.obi > 0.8 && s.toxicity > 0.7 && CrossedEnough(s, s.bestAskQ))
            && (TakeRequest(s, symbolId) == Some(NewRequest(symbolId, Sell, Market, 0, 10, 10)) <==>
                s.obi < -0.8 && s.toxicity < -0.7 && CrossedEnough(s, s.bestBidQ))
  {
    var s := SignalsAfter(es);
    SignalsAreOfTheTop(es);
    if s.bestBidQ + s.bestAskQ > 0 {
      hide MicroPrice;
      MicroPriceBeyond(s.bestBidP, s.bestBidQ, s.bestAskP, s.bestAskQ);
    }
  }

  /** A strong one-sided book crossed by 11 ticks, and one aggressive trade: the take happens. */
  lemma CrossedFeedTakes(symbolId: nat)
    ensures TakeRequest(SignalsAfter([BookEvent(Buy, 111, 95), BookEvent(Sell, 100, 5), TradeEvent(111, 1)]), symbolId)
            == Some(NewRequest(symbolId, Buy, Market, 0, 10, 10))
  {
    var e0, e1, e2 := BookEvent(Buy, 111, 95), BookEvent(Sell, 100, 5), TradeEvent(111, 1);
    assert [e0][..0] == [] && [e0, e1][..1] == [e0] && [e0, e1, e2][..2] == [e0, e1];
    var book := L2.Levels(map[111 := 95], map[100 := 5]);
    assert BookAfter([e0]) == L2.Levels(map[111 := 95], map[]);
    assert BookAfter([e0, e1]) == book;
    assert SignalsAfter([e0]) == NO_SIGNALS;
    var s := SignalsAfter([e0, e1]);
    assert s == OnBook(NO_SIGNALS, book);
    assert book.bids - {111} == map[] && book.asks - {100} == map[];
    assert Best(book.bids.Keys, true) == 111 && Best(book.asks.Keys, false) == 100;
    assert DepthQty(book.bids, true, TOP) == 95 && DepthQty(book.asks, false, TOP) == 5;
    assert s.microPrice == 100.55 && s.obi == 0.9;
    assert SignalsAfter([e0, e1, e2]) == OnTrade(s, 111, 1);
  }

  lemma HasQuoteStep(s: Signals, inventory: int, symbolId: nat, open: seq<OrderResponse>, i: nat)
    requires i < |open|
    ensures forall side :: HasQuote(s, inventory, symbolId, open[..i + 1], side) <==>
              HasQuote(s, inventory, symbolId, open[..i], side)
              || (open[i].side == side && Holds(s, inventory, symbolId, open[i]))
  {
    forall side
      ensures HasQuote(s, inventory, symbolId, open[..i + 1], side) <==>
              HasQuote(s, inventory, symbolId, open[..i], side)
              || (open[i].side == side && Holds(s, inventory, symbolId, open[i]))
    {
      var now, next := open[..i], open[..i + 1];
      if HasQuote(s, inventory, symbolId, now, side) {
        var k :| 0 <= k < i && now[k].side == side && Holds(s, inventory, symbolId, now[k]);
        assert next[k] == now[k];
      }
      if open[i].side == side && Holds(s, inventory, symbolId, open[i]) {
        assert next[i] == open[i];
      }
      if HasQuote(s, inventory, symbolId, next, side) {
        var k :| 0 <= k <= i && next[k].side == side && Holds(s, inventory, symbolId, next[k]);
        assert k < i ==> now[k] == next[k];
      }
    }
  }

  /** One more open order: its cancel comes last, and its side has a quote if it keeps one. */
  lemma PullStep(s: Signals, inventory: int, symbolId: nat, open: seq<OrderResponse>, i: nat)
    requires i < |open|
    ensures Cancels(s, inventory, symbolId, open[..i + 1])
         == Cancels(s, inventory, symbolId, open[..i]) + CancelIfPulled(s, inventory, symbolId, open[i])
    ensures forall side :: HasQuote(s, inventory, symbolId, open[..i + 1], side) <==>
              HasQuote(s, inventory, symbolId, open[..i], side)
              || (open[i].side == side && Holds(s, inventory, symbolId, open[i]))
  {
    hide HasQuote, Holds, CancelIfPulled;
    assert open[..i + 1][..i] == open[..i];
    HasQuoteStep(s, inventory, symbolId, open, i);
  }

  lemma NothingPulled(s: Signals, inventory: int, symbolId: nat)
    ensures Cancels(s, inventory, symbolId, []) == []
    ensures !HasQuote(s, inventory, symbolId, [], Buy) && !HasQuote(s, inventory, symbolId, [], Sell)
  {
  }

  // ----- the code

  class MarketMakerAdvanced {
    const targetSymbol: nat
    const client: AlgoTradingClient
    const account: A.ClientAccount
    const localBook: L2.L2Book
    var signals: Signals
    /** How many orders the protection has cancelled. */
    var cancelsSent: nat

    ghost predicate Valid()
      reads this, localBook
    {
      localBook.Valid() && SignalInv(signals)
    }

    constructor (targetSymbol: nat, client: AlgoTradingClient, account: A.ClientAccount)
      ensures Valid() && signals == NO_SIGNALS && cancelsSent == 0
      ensures localBook.Contents() == L2.EMPTY && fresh(localBook)
      ensures this.targetSymbol == targetSymbol && this.client == client && this.account == account
    {
      this.targetSymbol, this.client, this.account := targetSymbol, client, account;
      localBook := new L2.L2Book();
      signals, cancelsSent := NO_SIGNALS, 0;
    }

    /** Send a request if the condition holds. */
    method SendIf(condition: bool, request: OrderRequest, now: nat) returns (ghost sentNow: seq<OrderRequest>)
      requires client.Valid()
      modifies client
      ensures client.Valid()
      ensures client.sent == old(client.sent) + sentNow && client.nextId == old(client.nextId) + |sentNow|
      ensures AllSentAs(if condition then [request] else [], sentNow, old(client.nextId))
      ensures |sentNow| == if condition then 1 else 0
    {
      sentNow := [];
      if condition {
        var stamped := client.SendOrderRequest(request, now);
        sentNow := [stamped];
      }
    }

    /** Cancel one order if it has been swept. */
    method FadeOrder(o: OrderResponse, now: nat) returns (ghost sentNow: seq<OrderRequest>)
      requires client.Valid()
      modifies client, this`cancelsSent
      ensures client.Valid()
      ensures client.sent == old(client.sent) + sentNow && client.nextId == old(client.nextId) + |sentNow|
      ensures cancelsSent == old(cancelsSent) + |sentNow|
      ensures AllSentAs(FadeIfSwept(signals, targetSymbol, o), sentNow, old(client.nextId))
    {
      hide AllSentAs;
      var swept := false;
      if o.symbolId == targetSymbol {
        if o.side == Sell && signals.microPrice > o.p as real + 2.0 && signals.toxicity > 0.6 {
          swept := true;
        } else if o.side == Buy && signals.microPrice < o.p as real - 2.0 && signals.toxicity < -0.6 {
          swept := true;
        }
      }
      sentNow := SendIf(swept, CancelRequest(o.orderId, targetSymbol, o.side), now);
      if swept {
        cancelsSent := cancelsSent + 1;
      }
    }

    /** Cancel the symbol's open orders that have been swept. */
    method FastCancelProtection(now: nat) returns (ghost sentNow: seq<OrderRequest>)
      requires client.Valid()
      modifies client, this`cancelsSent
      ensures client.Valid()
      ensures client.sent == old(client.sent) + sentNow && client.nextId == old(client.nextId) + |sentNow|
      ensures cancelsSent == old(cancelsSent) + |sentNow|
      ensures AllSentAs(Fades(signals, targetSymbol, account.openOrders), sentNow, old(client.nextId))
    {
      hide AllSentAs, FadeIfSwept;
      NothingSent(client.nextId);
      var open := account.openOrders;
      sentNow := [];
      for i := 0 to |open|
        invariant client.Valid()
        invariant client.sent == old(client.sent) + sentNow && client.nextId == old(client.nextId) + |sentNow|
        invariant cancelsSent == old(cancelsSent) + |sentNow|
        invariant AllSentAs(Fades(signals, targetSymbol, open[..i]), sentNow, old(client.nextId))
      {
        ghost var fades := Fades(signals, targetSymbol, open[..i]);
        FadesNext(signals, targetSymbol, open, i);
        var sentOne := FadeOrder(open[i], now);
        SentInTwoParts(fades, sentNow, FadeIfSwept(signals, targetSymbol, open[i]), sentOne, old(client.nextId));
        sentNow := sentNow + sentOne;
      }
      assert open[..|open|] == open;
    }

    method UpdateMicrostructureSignals()
      requires Valid()
      modifies `signals
      ensures Valid() && signals == OnBook(old(signals), localBook.Contents())
    {
      OnBookKeepsInv(signals, localBook.Contents());
      var bids := TopLevels(localBook.bids, true);
      var asks := TopLevels(localBook.asks, false);
      DepthIsOfTop(localBook.bids, true, TOP, bids);
      DepthIsOfTop(localBook.asks, false, TOP, asks);
      if bids == [] || asks == [] { return; }
      DepthPositive(localBook.bids, true);
      var bid, ask := bids[0], asks[0];
      assert ask.qty > 0;
      var bidQ, askQ := QtySum(bids), QtySum(asks);
      signals := signals.(
        bestBidP := bid.price, bestBidQ := bid.qty, bestAskP := ask.price, bestAskQ := ask.qty,
        microPrice := (ask.price * bid.qty + bid.price * ask.qty) as real / (bid.qty + ask.qty) as real,
        obi := (bidQ as real - askQ as real) / (bidQ as real + askQ as real));
    }

    /** Take over the level, update the signals, and cancel what they say has been swept. */
    method OnL2Update(symbolId: nat, side: Side, p: int, q: nat, now: nat) returns (ghost sentNow: seq<OrderRequest>)
      requires Valid() && client.Valid()
      modifies this, localBook, client
      ensures Valid() && client.Valid()
      ensures client.sent == old(client.sent) + sentNow && client.nextId == old(client.nextId) + |sentNow|
      ensures cancelsSent == old(cancelsSent) + |sentNow|
      ensures symbolId != targetSymbol ==>
                && signals == old(signals) && localBook.Contents() == old(localBook.Contents())
                && sentNow == []
      ensures symbolId == targetSymbol ==>
                && localBook.Contents() == L2.Apply(old(localBook.Contents()), side, p, q)
                && signals == OnBook(old(signals), localBook.Contents())
                && AllSentAs(Fades(signals, targetSymbol, account.openOrders), sentNow, old(client.nextId))
    {
      hide AllSentAs, Fades;
      sentNow := [];
      if symbolId != targetSymbol { return; }
      localBook.Update(side, p, q);
      UpdateMicrostructureSignals();
      sentNow := FastCancelProtection(now);
    }

    method UpdateToxicity()
      modifies this
      ensures signals == Decay(old(signals))
    {
      signals := signals.(aggressiveBuyVol := signals.aggressiveBuyVol * 0.95,
                          aggressiveSellVol := signals.aggressiveSellVol * 0.95);
      var total := signals.aggressiveBuyVol + signals.aggressiveSellVol;
      if total > 0.0 {
        signals := signals.(toxicity := (signals.aggressiveBuyVol - signals.aggressiveSellVol) / total);
      }
    }

    method OnL3Update(symbolId: nat, execType: ExecType, p: int, q: nat)
      requires Valid()
      modifies this
      ensures Valid()
      ensures signals == if symbolId == targetSymbol && (execType == Fill || execType == PartialFill)
                         then OnTrade(old(signals), p, q) else old(signals)
    {
      if symbolId != targetSymbol { return; }
      if execType != Fill && execType != PartialFill { return; }
      OnTradeKeepsInv(signals, p, q);
      var mid := (signals.bestBidP + signals.bestAskP) as real / 2.0;
      if p as real >= mid {
        signals := signals.(aggressiveBuyVol := signals.aggressiveBuyVol + q as real);
      } else {
        signals := signals.(aggressiveSellVol := signals.aggressiveSellVol + q as real);
      }
      UpdateToxicity();
    }

    method ComputeTargets(inventory: int) returns (targetBid: int, targetAsk: int)
      ensures targetBid == TargetBid(signals, inventory) && targetAsk == TargetAsk(signals, inventory)
    {
      var skew := (-inventory) as real * 0.5;
      var reservation := signals.microPrice + skew;
      var halfSpread := 2.0 + Abs(signals.obi) * 1.5 + Abs(signals.toxicity) * 3.0 + AbsInt(inventory) as real * 0.1;
      targetBid, targetAsk := Round(reservation - halfSpread), Round(reservation + halfSpread);
    }

    /** Cancel one quote if it has to go, and say whether it stays. */
    method PullQuote(o: OrderResponse, inventory: int, targetBid: int, targetAsk: int, now: nat)
        returns (keeps: bool, ghost sentNow: seq<OrderRequest>)
      requires targetBid == TargetBid(signals, inventory) && targetAsk == TargetAsk(signals, inventory)
      requires client.Valid()
      modifies client
      ensures client.Valid()
      ensures keeps == Holds(signals, inventory, targetSymbol, o)
      ensures client.sent == old(client.sent) + sentNow && client.nextId == old(client.nextId) + |sentNow|
      ensures AllSentAs(CancelIfPulled(signals, inventory, targetSymbol, o), sentNow, old(client.nextId))
    {
      hide AllSentAs, TargetBid, TargetAsk;
      var quoteBid, quoteAsk, cancel := signals.toxicity > -0.8, signals.toxicity < 0.8, false;
      keeps := false;
      if o.symbolId == targetSymbol {
        if o.side == Buy {
          if !quoteBid || AbsInt(o.p - targetBid) > 1 { cancel := true; } else { keeps := true; }
        } else if o.side == Sell {
          if !quoteAsk || AbsInt(o.p - targetAsk) > 1 { cancel := true; } else { keeps := true; }
        }
      }
      sentNow := SendIf(cancel, CancelRequest(o.orderId, targetSymbol, o.side), now);
    }

    /** Cancel the quotes that have to go, and say which sides keep one. */
    method PullQuotes(open: seq<OrderResponse>, inventory: int, targetBid: int, targetAsk: int, now: nat)
        returns (hasBid: bool, hasAsk: bool, ghost sentNow: seq<OrderRequest>)
      requires targetBid == TargetBid(signals, inventory) && targetAsk == TargetAsk(signals, inventory)
      requires client.Valid()
      modifies client
      ensures client.Valid()
      ensures hasBid == HasQuote(signals, inventory, targetSymbol, open, Buy)
      ensures hasAsk == HasQuote(signals, inventory, targetSymbol, open, Sell)
      ensures client.sent == old(client.sent) + sentNow && client.nextId == old(client.nextId) + |sentNow|
      ensures AllSentAs(Cancels(signals, inventory, targetSymbol, open), sentNow, old(client.nextId))
    {
      hide AllSentAs, Holds, HasQuote, CancelIfPulled, Cancels;
      NothingPulled(signals, inventory, targetSymbol);
      NothingSent(client.nextId);
      hasBid, hasAsk, sentNow := false, false, [];
      for i := 0 to |open|
        invariant hasBid == HasQuote(signals, inventory, targetSymbol, open[..i], Buy)
        invariant hasAsk == HasQuote(signals, inventory, targetSymbol, open[..i], Sell)
        invariant client.Valid()
        invariant client.sent == old(client.sent) + sentNow && client.nextId == old(client.nextId) + |sentNow|
        invariant AllSentAs(Cancels(signals, inventory, targetSymbol, open[..i]), sentNow, old(client.nextId))
      {
        ghost var cancels := Cancels(signals, inventory, targetSymbol, open[..i]);
        ghost var pulled := CancelIfPulled(signals, inventory, targetSymbol, open[i]);
        PullStep(signals, inventory, targetSymbol, open, i);
        var keeps, sentOne := PullQuote(open[i], inventory, targetBid, targetAsk, now);
        if keeps && open[i].side == Buy { hasBid := true; }
        if keeps && open[i].side == Sell { hasAsk := true; }
        SentInTwoParts(cancels, sentNow, pulled, sentOne, old(client.nextId));
        sentNow := sentNow + sentOne;
      }
      assert open[..|open|] == open;
    }

    /** Cancel the quotes that have to go, then quote the sides left without one. */
    method ManageQuotes(now: nat) returns (ghost sentNow: seq<OrderRequest>)
      requires client.Valid()
      modifies client
      ensures client.Valid()
      ensures client.sent == old(client.sent) + sentNow && client.nextId == old(client.nextId) + |sentNow|
      ensures var inventory := A.Position(account.positions, targetSymbol);
              AllSentAs(QuoteRequests(signals, inventory, targetSymbol, account.openOrders), sentNow,
                        old(client.nextId))
    {
      hide AllSentAs, IdsRise, Cancels, HasQuote, TargetBid, TargetAsk;
      var open, inventory := account.openOrders, A.Position(account.positions, targetSymbol);
      var targetBid, targetAsk := ComputeTargets(inventory);
      var quoteBid, quoteAsk := signals.toxicity > -0.8, signals.toxicity < 0.8;

      ghost var cancels := Cancels(signals, inventory, targetSymbol, open);
      ghost var newBid := NewQuote(signals, inventory, targetSymbol, open, Buy);
      ghost var newAsk := NewQuote(signals, inventory, targetSymbol, open, Sell);
      var hasBid, hasAsk, cancelled := PullQuotes(open, inventory, targetBid, targetAsk, now);
      var sentBid := SendIf(!hasBid && quoteBid, NewRequest(targetSymbol, Buy, Limit, targetBid, QUOTE_QTY, 0), now);
      var sentAsk := SendIf(!hasAsk && quoteAsk, NewRequest(targetSymbol, Sell, Limit, targetAsk, QUOTE_QTY, 0), now);
      SentInThreeParts(cancels, cancelled, newBid, sentBid, newAsk, sentAsk, old(client.nextId));
      sentNow := cancelled + sentBid + sentAsk;
    }

    method OpportunisticTake(now: nat) returns (ghost sentNow: seq<OrderRequest>)
      requires client.Valid()
      modifies client
      ensures client.Valid()
      ensures client.sent == old(client.sent) + sentNow
      ensures AllSentAs(match TakeRequest(signals, targetSymbol) case Some(r) => [r] case None => [],
                        sentNow, old(client.nextId))
    {
      if signals.obi > 0.8 && signals.toxicity > 0.7 && signals.microPrice > signals.bestAskP as real + 0.5 {
        client.NewMarketOrder(targetSymbol, Buy, 10, now);
      } else if signals.obi < -0.8 && signals.toxicity < -0.7 && signals.microPrice < signals.bestBidP as real - 0.5 {
        client.NewMarketOrder(targetSymbol, Sell, 10, now);
      }
      sentNow := client.sent[|old(client.sent)|..];
    }
  }
}
