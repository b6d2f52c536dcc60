/** The native market maker's tick: move, cancel or keep each open order, then refill both sides. */
module MMNativeModule {
  import opened Types
  import opened Rounding
  import opened Permutations
  import opened AlgoClientModule
  import A = AccountModule

  const SYMBOL: nat := 1

  const TARGET_PER_SIDE: nat := 12

  datatype Decision = Keep | Reprice(p: int) | Withdraw | Ignore

  /** Everything one tick decides: a decision per open order, and the new orders of each side. */
  datatype Tick = Tick(decisions: seq<Decision>, newBids: seq<OrderRequest>, newAsks: seq<OrderRequest>)

  /** The price keeps its distance from the estimation. */
  predicate Distant(side: Side, p: int, estimation: real) {
    match side
    case Buy => p as real <= estimation - 1.0
    case Sell => p as real >= estimation + 1.0
    case NoSide => true
  }

  /** The price lies so far from the estimation that the order is of no use. */
  predicate TooDeep(side: Side, p: int, estimation: real) {
    match side
    case Buy => (p as real) < estimation - 60.0
    case Sell => p as real > estimation + 60.0
    case NoSide => false
  }

  /** A decision the tick may take, whatever the random draws. */
  predicate Sound(o: OrderResponse, estimation: real, d: Decision) {
    match d
    case Keep => o.side != NoSide && Distant(o.side, o.p, estimation) && !TooDeep(o.side, o.p, estimation)
    case Reprice(p) => o.side != NoSide && Distant(o.side, p, estimation)
    case Withdraw => TooDeep(o.side, o.p, estimation)
    case Ignore => o.side == NoSide
  }

  /** The order stays in the book and counts towards its side's target. */
  predicate Stays(d: Decision) {
    d.Keep? || d.Reprice?
  }

  function CountStaying(open: seq<OrderResponse>, ds: seq<Decision>, side: Side): nat
    requires |open| == |ds|
  {
    if open == [] then 0
    else
      CountStaying(open[..|open| - 1], ds[..|ds| - 1], side)
      + (if open[|open| - 1].side == side && Stays(ds[|ds| - 1]) then 1 else 0)
  }

  function AdjustmentOf(o: OrderResponse, d: Decision): seq<OrderRequest> {
    match d
    case Reprice(p) => [ModifyRequest(o.orderId, p, o.q, o.symbolId, o.side)]
    case Withdraw => [CancelRequest(o.orderId, o.symbolId, o.side)]
    case _ => []
  }

  /** The requests for the open orders, in their order. */
  function Adjustments(open: seq<OrderResponse>, ds: seq<Decision>): seq<OrderRequest>
    requires |open| == |ds|
  {
    if open == [] then []
    else
      Adjustments(open[..|open| - 1], ds[..|ds| - 1]) + AdjustmentOf(open[|open| - 1], ds[|ds| - 1])
  }

  predicate Placement(r: OrderRequest, side: Side, estimation: real) {
    r == NewRequest(SYMBOL, side, Limit, r.p, r.q, 0) && Distant(side, r.p, estimation)
  }

  predicate Placements(rs: seq<OrderRequest>, side: Side, estimation: real, staying: nat) {
    && |rs| == (if staying < TARGET_PER_SIDE then TARGET_PER_SIDE - staying else 0)
    && forall i :: 0 <= i < |rs| ==> Placement(rs[i], side, estimation)
  }

  predicate IsTick(estimation: real, open: seq<OrderResponse>, t: Tick) {
    && |t.decisions| == |open|
    && (forall i :: 0 <= i < |open| ==> Sound(open[i], estimation, t.decisions[i]))
    && Placements(t.newBids, Buy, estimation, CountStaying(open, t.decisions, Buy))
    && Placements(t.newAsks, Sell, estimation, CountStaying(open, t.decisions, Sell))
  }

  function Requests(open: seq<OrderResponse>, t: Tick): seq<OrderRequest>
    requires |open| == |t.decisions|
  {
    Adjustments(open, t.decisions) + t.newBids + t.newAsks
  }

  /** The price of a quote: one and a half ticks and the noise away from the estimation, rounded. */
  function QuotePrice(side: Side, estimation: real, noise: real): int {
    Round(if side == Buy then estimation - 1.5 - Abs(noise) else estimation + 1.5 + Abs(noise))
  }

  /** What the tick decides about an order, given its two random draws. */
  function Decide(o: OrderResponse, estimation: real, shouldFlicker: bool, noise: real): Decision {
    if o.side == NoSide then Ignore
    else if !Distant(o.side, o.p, estimation) || shouldFlicker then Reprice(QuotePrice(o.side, estimation, noise))
    else if TooDeep(o.side, o.p, estimation) then Withdraw
    else Keep
  }

  function NewQuote(side: Side, estimation: real, noise: real, quantity: nat): OrderRequest {
    NewRequest(SYMBOL, side, Limit, QuotePrice(side, estimation, noise), quantity, 0)
  }

  /** Rounding takes at most half a tick back, whatever the draw. */
  lemma QuoteIsDistant(side: Side, estimation: real, noise: real)
    requires side != NoSide
    ensures Distant(side, QuotePrice(side, estimation, noise), estimation)
  {
    RoundIsNear(if side == Buy then estimation - 1.5 - Abs(noise) else estimation + 1.5 + Abs(noise));
  }

  /** No draw leaves an order closer than one tick, or an order that is too deep without an answer. */
  lemma DecideIsSound(o: OrderResponse, estimation: real, shouldFlicker: bool, noise: real)
    ensures Sound(o, estimation, Decide(o, estimation, shouldFlicker, noise))
  {
    if o.side != NoSide {
      QuoteIsDistant(o.side, estimation, noise);
    }
  }

  /** The decisions of a tick about all the open orders, each with draws of its own. */
  ghost predicate Decided(open: seq<OrderResponse>, ds: seq<Decision>, estimation: real,
                          flicker: nat -> real, noise: nat -> real)
  {
    && |ds| == |open|
    && forall k :: 0 <= k < |open| ==> ds[k] == Decide(open[k], estimation, flicker(k) < 0.15, noise(k))
  }

  lemma NothingDecided(estimation: real, flicker: nat -> real, noise: nat -> real)
    ensures Decided([], [], estimation, flicker, noise)
  {
  }

  lemma DecidedNext(open: seq<OrderResponse>, ds: seq<Decision>, estimation: real,
                    flicker: nat -> real, noise: nat -> real, o: OrderResponse)
    requires Decided(open, ds, estimation, flicker, noise)
    ensures Decided(open + [o], ds + [Decide(o, estimation, flicker(|open|) < 0.15, noise(|open|))],
                    estimation, flicker, noise)
  {
  }

  lemma DecidedSound(open: seq<OrderResponse>, ds: seq<Decision>, estimation: real,
                     flicker: nat -> real, noise: nat -> real)
    requires Decided(open, ds, estimation, flicker, noise)
    ensures forall k :: 0 <= k < |open| ==> Sound(open[k], estimation, ds[k])
  {
    forall k | 0 <= k < |open| ensures Sound(open[k], estimation, ds[k]) {
      DecideIsSound(open[k], estimation, flicker(k) < 0.15, noise(k));
    }
  }

  /** The new orders of a side, each with draws of its own. */
  ghost predicate Quoted(placed: seq<OrderRequest>, side: Side, estimation: real, count: nat,
                         noise: nat -> real, quantity: nat -> nat)
  {
    forall k :: 0 <= k < |placed| ==>
      placed[k] == NewQuote(side, estimation, noise(count + k), quantity(count + k))
  }

  // ----- what the draws mean, spelled out

  /** The rounded price: one and a half ticks and the size of the draw away from the estimation. */
  predicate PricedByDraw(side: Side, p: int, estimation: real, draw: real) {
    var size := if draw < 0.0 then -draw else draw;
    var exact := if side == Buy then estimation - 1.5 - size else estimation + 1.5 + size;
    exact - 0.5 <= p as real <= exact + 0.5
  }

  /**
   An order is moved exactly if its first draw says so or it is closer than 1, to the price of its second
   draw; of the others exactly those deeper than 60 are cancelled. An order without a side is left alone.
   */
  predicate DecidedByDraws(o: OrderResponse, estimation: real, flicker: real, draw: real, d: Decision) {
    var p := o.p as real;
    var close := if o.side == Buy then p > estimation - 1.0 else p < estimation + 1.0;
    var deep := if o.side == Buy then p < estimation - 60.0 else p > estimation + 60.0;
    if o.side == NoSide then d.Ignore?
    else
      && (d.Reprice? <==> flicker < 0.15 || close)
      && (d.Reprice? ==> PricedByDraw(o.side, d.p, estimation, draw))
      && (d.Withdraw? <==> !d.Reprice? && deep)
      && (d.Keep? <==> !d.Reprice? && !deep)
  }

  predicate PlacedByDraws(r: OrderRequest, side: Side, estimation: real, draw: real, quantity: nat) {
    && r.action == NewOrder && r.symbolId == 1 && r.side == side && r.orderType == Limit
    && r.q == r.visibleQty == quantity && PricedByDraw(side, r.p, estimation, draw)
  }

  lemma QuotePriceByDraw(side: Side, estimation: real, draw: real)
    ensures PricedByDraw(side, QuotePrice(side, estimation, draw), estimation, draw)
  {
    RoundIsNear(if side == Buy then estimation - 1.5 - Abs(draw) else estimation + 1.5 + Abs(draw));
  }

  lemma DecideByDraws(o: OrderResponse, estimation: real, flicker: real, draw: real)
    ensures DecidedByDraws(o, estimation, flicker, draw, Decide(o, estimation, flicker < 0.15, draw))
  {
    QuotePriceByDraw(o.side, estimation, draw);
  }

  /** Every decision of the tick is the one its draws ask for. */
  ghost predicate AllDecidedByDraws(open: seq<OrderResponse>, ds: seq<Decision>, estimation: real,
                                    flicker: nat -> real, noise: nat -> real)
  {
    && |ds| == |open|
    && forall k :: 0 <= k < |open| ==> DecidedByDraws(open[k], estimation, flicker(k), noise(k), ds[k])
  }

  /** Exactly the orders missing to twelve are placed, each as its draws ask for. */
  ghost predicate AllPlacedByDraws(placed: seq<OrderRequest>, side: Side, estimation: real, count: nat,
                                   noise: nat -> real, quantity: nat -> nat)
  {
    && |placed| == (if count < 12 then 12 - count else 0)
    && forall k :: 0 <= k < |placed| ==>
         PlacedByDraws(placed[k], side, estimation, noise(count + k), quantity(count + k))
  }

  lemma DecidedMeans(open: seq<OrderResponse>, ds: seq<Decision>, estimation: real,
                     flicker: nat -> real, noise: nat -> real)
    requires Decided(open, ds, estimation, flicker, noise)
    ensures AllDecidedByDraws(open, ds, estimation, flicker, noise)
  {
    forall k | 0 <= k < |open| ensures DecidedByDraws(open[k], estimation, flicker(k), noise(k), ds[k]) {
      DecideByDraws(open[k], estimation, flicker(k), noise(k));
    }
  }

  lemma QuotedMeans(placed: seq<OrderRequest>, side: Side, estimation: real, count: nat,
                    noise: nat -> real, quantity: nat -> nat)
    requires Placements(placed, side, estimation, count)
    requires Quoted(placed, side, estimation, count, noise, quantity)
    ensures AllPlacedByDraws(placed, side, estimation, count, noise, quantity)
  {
    forall k | 0 <= k < |placed|
      ensures PlacedByDraws(placed[k], side, estimation, noise(count + k), quantity(count + k))
    {
      QuotePriceByDraw(side, estimation, noise(count + k));
    }
  }

  /** The request moves or cancels the order as decided, and changes nothing else of it. */
  predicate Adjusts(r: OrderRequest, o: OrderResponse, d: Decision) {
    && r.orderId == o.orderId && r.symbolId == o.symbolId && r.side == o.side
    && match d
       case Reprice(p) => r.action == ModifyOrder && r.p == p && r.q == o.q
       case Withdraw => r.action == CancelOrder
       case _ => false
  }

  /** The requests adjust the open orders at these places, which rise, as was decided for them. */
  ghost predicate AdjustAt(open: seq<OrderResponse>, ds: seq<Decision>, at: seq<nat>, rs: seq<OrderRequest>)
    requires |open| == |ds|
  {
    && |at| == |rs|
    && (forall k :: 0 <= k < |at| ==> at[k] < |open| && Adjusts(rs[k], open[at[k]], ds[at[k]]))
    && (forall j, k :: 0 <= j < k < |at| ==> at[j] < at[k])
  }

  lemma AdjustmentOfAdjusts(o: OrderResponse, d: Decision)
    ensures if d.Reprice? || d.Withdraw? then |AdjustmentOf(o, d)| == 1 && Adjusts(AdjustmentOf(o, d)[0], o, d)
            else AdjustmentOf(o, d) == []
  {
  }

  /** One more open order, adjusted last or not at all. */
  lemma AdjustAtNext(open: seq<OrderResponse>, ds: seq<Decision>, at: seq<nat>, rs: seq<OrderRequest>)
      returns (at': seq<nat>)
    requires |open| == |ds| && open != [] && AdjustAt(open[..|open| - 1], ds[..|open| - 1], at, rs)
    ensures var n := |open| - 1;
            && AdjustAt(open, ds, at', rs + AdjustmentOf(open[n], ds[n]))
            && at' == at + if ds[n].Reprice? || ds[n].Withdraw? then [n] else []
  {
    var n := |open| - 1;
    AdjustmentOfAdjusts(open[n], ds[n]);
    hide Adjusts, AdjustmentOf;
    at' := at + if ds[n].Reprice? || ds[n].Withdraw? then [n] else [];
    assert forall k :: 0 <= k < |at| ==> open[..n][at[k]] == open[at[k]] && ds[..n][at[k]] == ds[at[k]];
  }

  /** Exactly the orders to be moved or cancelled are adjusted, each once and in the order they are open. */
  lemma {:induction false} AdjustmentsAdjust(open: seq<OrderResponse>, ds: seq<Decision>) returns (at: seq<nat>)
    requires |open| == |ds|
    ensures AdjustAt(open, ds, at, Adjustments(open, ds))
    ensures forall i: nat :: i in at <==> i < |open| && (ds[i].Reprice? || ds[i].Withdraw?)
  {
    at := [];
    if open != [] {
      hide AdjustAt, AdjustmentOf;
      var n := |open| - 1;
      var before := AdjustmentsAdjust(open[..n], ds[..n]);
      at := AdjustAtNext(open, ds, before, Adjustments(open[..n], ds[..n]));
      assert forall i: nat :: i < n ==> ds[..n][i] == ds[i];
    }
  }

  // ----- the code

  class MarketMakerNative {
    const client: AlgoTradingClient
    const account: A.ClientAccount

    constructor (client: AlgoTradingClient, account: A.ClientAccount)
      ensures this.client == client && this.account == account
    {
      this.client, this.account := client, account;
    }

    /** Move, cancel or keep one open order. `shouldFlicker` and `noise` are its random draws. */
    method AdjustOrder(o: OrderResponse, estimation: real, shouldFlicker: bool, noise: real, now: nat)
        returns (stays: bool, ghost d: Decision, ghost sentNow: seq<OrderRequest>)
      requires client.Valid()
      modifies client
      ensures client.Valid()
      ensures d == Decide(o, estimation, shouldFlicker, noise) && stays == Stays(d)
      ensures DecidedByDraws(o, estimation, if shouldFlicker then 0.0 else 1.0, noise, d)
      ensures client.sent == old(client.sent) + sentNow && client.nextId == old(client.nextId) + |sentNow|
      ensures AllSentAs(AdjustmentOf(o, d), sentNow, old(client.nextId))
    {
      QuotePriceByDraw(o.side, estimation, noise);
      stays, d, sentNow := false, Ignore, [];
      if o.side == Buy {
        if o.p as real > estimation - 1.0 || shouldFlicker {
          var newP := estimation - 1.5 - Abs(noise);
          client.ReplaceOrder(o.orderId, Round(newP), o.q, o.symbolId, o.side, now);
          stays, d := true, Reprice(Round(newP));
          sentNow := [client.sent[|old(client.sent)|]];
        } else if (o.p as real) < estimation - 60.0 {
          client.CancelOrder(o.orderId, o.symbolId, o.side, now);
          d := Withdraw;
          sentNow := [client.sent[|old(client.sent)|]];
        } else {
          stays, d := true, Keep;
        }
      } else if o.side == Sell {
        if (o.p as real) < estimation + 1.0 || shouldFlicker {
          var newP := estimation + 1.5 + Abs(noise);
          client.ReplaceOrder(o.orderId, Round(newP), o.q, o.symbolId, o.side, now);
          stays, d := true, Reprice(Round(newP));
          sentNow := [client.sent[|old(client.sent)|]];
        } else if o.p as real > estimation + 60.0 {
          client.CancelOrder(o.orderId, o.symbolId, o.side, now);
          d := Withdraw;
          sentNow := [client.sent[|old(client.sent)|]];
        } else {
          stays, d := true, Keep;
        }
      }
    }

    /** Place new orders on one side until the count reaches the target. */
    method Replenish(side: Side, count: nat, estimation: real, noise: nat -> real, quantity: nat -> nat, now: nat)
        returns (ghost placed: seq<OrderRequest>, ghost sentNow: seq<OrderRequest>)
      requires side != NoSide && client.Valid()
      modifies client
      ensures client.Valid()
      ensures Placements(placed, side, estimation, count)
      ensures Quoted(placed, side, estimation, count, noise, quantity)
      ensures AllPlacedByDraws(placed, side, estimation, count, noise, quantity)
      ensures client.sent == old(client.sent) + sentNow && client.nextId == old(client.nextId) + |sentNow|
      ensures AllSentAs(placed, sentNow, old(client.nextId))
    {
      placed, sentNow := [], [];
      var i := count;
      while i < TARGET_PER_SIDE
        invariant count <= i <= (if count < TARGET_PER_SIDE then TARGET_PER_SIDE else count)
        invariant |placed| == i - count
        invariant Quoted(placed, side, estimation, count, noise, quantity)
        invariant client.Valid()
        invariant client.sent == old(client.sent) + sentNow && client.nextId == old(client.nextId) + |sentNow|
        invariant AllSentAs(placed, sentNow, old(client.nextId))
      {
        var p := if side == Buy then estimation - 1.5 - Abs(noise(i)) else estimation + 1.5 + Abs(noise(i));
        ghost var before, request := client.sent, NewQuote(side, estimation, noise(i), quantity(i));
        client.NewLimitOrder(SYMBOL, side, Round(p), quantity(i), now);
        ghost var stamped := client.sent[|before|];
        SentInTwoParts(placed, sentNow, [request], [stamped], old(client.nextId));
        placed, sentNow := placed + [request], sentNow + [stamped];
        i := i + 1;
      }
      forall k | 0 <= k < |placed| ensures Placement(placed[k], side, estimation) {
        QuoteIsDistant(side, estimation, noise(count + k));
      }
      QuotedMeans(placed, side, estimation, count, noise, quantity);
    }

    /** Go through the open orders, and count those that stay. */
    method AdjustAll(open: seq<OrderResponse>, estimation: real, flicker: nat -> real, noise: nat -> real, now: nat)
        returns (bids: nat, asks: nat, ghost ds: seq<Decision>, ghost sentNow: seq<OrderRequest>)
      requires client.Valid()
      modifies client
      ensures client.Valid()
      ensures |ds| == |open| && Decided(open, ds, estimation, flicker, noise)
      ensures bids == CountStaying(open, ds, Buy) && asks == CountStaying(open, ds, Sell)
      ensures client.sent == old(client.sent) + sentNow && client.nextId == old(client.nextId) + |sentNow|
      ensures AllSentAs(Adjustments(open, ds), sentNow, old(client.nextId))
    {
      hide AllSentAs, Decide, Decided, AdjustmentOf;
      NothingSent(client.nextId);
      NothingDecided(estimation, flicker, noise);
      bids, asks, ds, sentNow := 0, 0, [], [];
      for i := 0 to |open|
        invariant |ds| == i
        invariant Decided(open[..i], ds, estimation, flicker, noise)
        invariant bids == CountStaying(open[..i], ds, Buy) && asks == CountStaying(open[..i], ds, Sell)
        invariant client.Valid()
        invariant client.sent == old(client.sent) + sentNow && client.nextId == old(client.nextId) + |sentNow|
        invariant AllSentAs(Adjustments(open[..i], ds), sentNow, old(client.nextId))
      {
        ghost var rs := Adjustments(open[..i], ds);
        var stays, d, sentOne := AdjustOrder(open[i], estimation, flicker(i) < 0.15, noise(i), now);
        if stays && open[i].side == Buy { bids := bids + 1; }
        if stays && open[i].side == Sell { asks := asks + 1; }
        SentInTwoParts(rs, sentNow, AdjustmentOf(open[i], d), sentOne, old(client.nextId));
        DecidedNext(open[..i], ds, estimation, flicker, noise, open[i]);
        assert open[..i + 1] == open[..i] + [open[i]];
        assert open[..i + 1][..i] == open[..i] && (ds + [d])[..i] == ds;
        ds, sentNow := ds + [d], sentNow + sentOne;
      }
      assert open[..|open|] == open;
    }

    /**
     One tick. The functions are the random draws, `now` the clock. The requests are sent with consecutive
     ids; `sentNow` is what was sent.
     */
    method ManageOrders(estimation: real, flicker: nat -> real, noise: nat -> real,
                        bidNoise: nat -> real, askNoise: nat -> real,
                        bidQuantity: nat -> nat, askQuantity: nat -> nat, now: nat)
        returns (ghost tick: Tick, ghost sentNow: seq<OrderRequest>)
      requires client.Valid()
      modifies client
      ensures client.Valid()
      ensures IsTick(estimation, account.openOrders, tick)
      ensures AllDecidedByDraws(account.openOrders, tick.decisions, estimation, flicker, noise)
      ensures AllPlacedByDraws(tick.newBids, Buy, estimation,
                               CountStaying(account.openOrders, tick.decisions, Buy), bidNoise, bidQuantity)
      ensures AllPlacedByDraws(tick.newAsks, Sell, estimation,
                               CountStaying(account.openOrders, tick.decisions, Sell), askNoise, askQuantity)
      ensures client.sent == old(client.sent) + sentNow && client.nextId == old(client.nextId) + |sentNow|
      ensures AllSentAs(Requests(account.openOrders, tick), sentNow, old(client.nextId))
    {
      hide AllSentAs, Decided, Sound, Placements, Adjustments, CountStaying, Quoted;
      hide AllDecidedByDraws, AllPlacedByDraws;
      var open := account.openOrders;
      var bids, asks, ds, adjusted := AdjustAll(open, estimation, flicker, noise, now);
      var newBids, sentBids := Replenish(Buy, bids, estimation, bidNoise, bidQuantity, now);
      var newAsks, sentAsks := Replenish(Sell, asks, estimation, askNoise, askQuantity, now);
      tick := Tick(ds, newBids, newAsks);
      DecidedSound(open, ds, estimation, flicker, noise);
      DecidedMeans(open, ds, estimation, flicker, noise);
      SentInThreeParts(Adjustments(open, ds), adjusted, newBids, sentBids, newAsks, sentAsks, old(client.nextId));
      sentNow := adjusted + sentBids + sentAsks;
    }
  }
}
